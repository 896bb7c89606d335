# csrgen.py in Dafny

`csrgen.py` is a command-line helper for Certificate Signing Requests. It has two
sub-commands. `config` renders a Jinja2 template into an organisation profile file named
`<org>_gen_config`. `csr` checks its `-d` argument (a file path or a host name), looks for
profile files in the working directory, and reaches `gen_csr`. `gen_csr` is a stub that
only prints a line. This project models the decision logic of that script as pure
Dafny functions and proves what each one guarantees:

- `DomainPattern`: the host-name regular expression of `check_domain`, piece by piece,
  with Python's `re` meaning of `.` and `$`. `MatchesIff` reduces it to a plain grammar.
  `ParseBody` and `ParseDotted` show that the grammar is exactly "dot-joined labels,
  optional trailing dot".
- `InputCheck`: `check_file` over an abstract "`os.stat` succeeds" predicate, and the
  three outcomes of `check_domain`.
- `ProfileTemplate`: the first stage of `config_template`. This covers the guarded
  distinguished-name entries (C, L, ST, O) and the text Jinja2 renders for them. The rest
  of the template is a string literal that is written out unchanged.
- `AltNames`: the numbering rule of the `alt_names` loop inside that literal. It is the
  second stage of the template, which this script never renders itself.
- `ConfigSearch`: the `fnmatch` filter `*_gen_config` and the file-name rule
  `org + "_gen_config"`.
- `CsrGen`: `main`, with the outcomes of both sub-commands as a datatype.

Behaviour the model keeps because the code has it:

- The `C` entry of the profile takes the *state* argument (csrgen.py:20). If a country is
  given without a state, the entry's value is the text `None`.
- The trim markers `{%- ... -%}` leave every distinguished-name entry on one line, run
  together (`EntriesOnOneLine`, `FullProfileLine`).
- When several profiles exist and `-o` is given, `check_file` receives a set literal.
  `os.stat` raises on it and the bare `except` returns `False`, so `gen_csr` is never
  reached (`AmbiguousNeverGenerates`).
- `if args.org` tests truthiness, so `-o ""` is treated as a missing organisation.
- Python's `$` also matches before a final newline, so `"example.com\n"` is accepted and
  returned with its newline (`FinalNewlineAccepted`).
- The domain check tests the whole name, not each label. A label in the middle may end
  with `-`, and so may a last label followed by the trailing dot (`InteriorHyphensAccepted`).
- `check_domain` returns an accepted name as it is. It does not lower-case it.
- `check_file` computes `st_size > 1` and ignores the result, so an existing empty file
  counts as a path.
- Blank SAN entries still use up a `loop.index`, so DNS numbers have gaps
  (`BlankLeavesGap`).
- `check_domain` raises `argparse.ArgumentError` with one argument, but the constructor
  needs two. The resulting `TypeError` is reported by argparse as an invalid `-d` value.
  The model treats it as one error outcome.

## Model

| member | source | states |
|---|---|---|
| `DomainPattern.Matches` | csrgen.py:59-61 | The pattern as `re.match` applies it: the length lookahead up to `$`, no leading `-`, a recognised body, no `-` before the end, and `$` (end of input or before a final newline). It has no contract of its own; `MatchesIff` and `AcceptedShape` specify it |
| `DomainPattern.MatchesIff` | csrgen.py:59-61 | The regex matches `s` iff `s`, less one final newline, has 1–255 characters, does not start or end with `-`, and parses as dot-separated labels with an optional trailing dot |
| `DomainPattern.ParseBody` | csrgen.py:60 | A recognised body is the dot-join of at least one label of 1–63 characters from `[A-Za-z0-9-]`, plus an optional trailing dot; all its characters are label characters or dots |
| `DomainPattern.ParseDotted` | csrgen.py:60 | Every dot-join of valid labels, with or without a trailing dot, is recognised and gives back the same labels and dot flag (parse inverts the grammar) |
| `DomainPattern.DottedMatches` | csrgen.py:59-61 | Valid labels joined by dots are accepted when the whole name has at most 255 characters and neither starts nor ends with `-` |
| `DomainPattern.AcceptedShape` | csrgen.py:59-61 | An accepted input, less one final newline, has 1–255 characters, no newline, no leading or trailing `-`, and is a dot-join of valid labels |
| `DomainPattern.FinalNewlineAccepted` | csrgen.py:60-61 | For a newline-free `s`, `s + "\n"` is accepted exactly when `s` is |
| `DomainPattern.InteriorHyphensAccepted` | csrgen.py:60 | `a-.b` and `a-.` are accepted: the hyphen rule does not apply to each label |
| `DomainPattern.OuterHyphensRejected` | csrgen.py:60 | `a-` and `-a` are rejected |
| `DomainPattern.EmptyLabelsRejected` | csrgen.py:60 | `a..b`, `.` and the empty string are rejected |
| `InputCheck.CheckFile` | csrgen.py:46-52 | Returns the argument exactly when it is a string on which `os.stat` succeeds, whatever the file's size; a set is never accepted |
| `InputCheck.CheckDomain` | csrgen.py:55-65 | Returns `(input, True)` iff stat succeeds on a non-empty input; otherwise returns the input unchanged iff the regex matches; otherwise fails |
| `InputCheck.LiteralDomainIff` | csrgen.py:56-63 | When nothing exists at the input, it is accepted iff it is a well-formed name (less one final newline), and it comes back unchanged |
| `InputCheck.MixedCaseKept` | csrgen.py:61-62 | `Example.COM` is accepted and returned without case folding |
| `ProfileTemplate.Interpolate` | csrgen.py:20-29 | `{{ v }}` renders a string as itself and Python's None as the text `None`. It has no contract of its own; `EntriesGated` and `CountryWithoutState` state its effect on the entries |
| `ProfileTemplate.DnEntries` | csrgen.py:19-30 | At most four entries. Every entry's value is its argument as rendered: L carries `l`, O carries `o`, and both C and ST carry the state `s`. `EntriesGated`, `EntriesOrdered` and `EntryCount` give presence, order and count |
| `ProfileTemplate.RenderProfile` | csrgen.py:13-43 | Every rendered profile starts with the fixed request section and ends with the second-stage literal, whatever the arguments. `EntriesOnOneLine` and `FullProfileLine` describe the entries line between them |
| `ProfileTemplate.EntriesGated` | csrgen.py:19-30 | Each of C, L, ST and O appears iff its own argument is not None. L, ST and O carry their own value; C carries the state value |
| `ProfileTemplate.EntriesOrdered` | csrgen.py:19-30 | Entries appear in the order C, L, ST, O, so no key appears twice |
| `ProfileTemplate.EntryCount` | csrgen.py:19-30 | There is one entry per argument that is not None |
| `ProfileTemplate.OrgEntryLast` | csrgen.py:28-30 | With an organisation given, the last entry is `O` with that value |
| `ProfileTemplate.OrgOnlyProfile` | csrgen.py:19-30 | With only `org="Acme"`, the entries are exactly `[O = Acme]` |
| `ProfileTemplate.CountryWithoutState` | csrgen.py:19-21 | A country given without a state yields the single entry `C = None` |
| `ProfileTemplate.EntriesOnOneLine` | csrgen.py:19-30 | If no value contains a newline, the text of all entries contains no newline, so they share one line |
| `ProfileTemplate.FullProfileLine` | csrgen.py:19-30 | With country US, locality Austin, state TX and org Acme, the entry text is C=TX, L=Austin, ST=TX, O=Acme run together; US does not appear |
| `AltNames.SanEntries` | csrgen.py:37-41 | Each emitted entry is a non-empty item numbered one more than its `loop.index`, numbers rise from one entry to the next, and there are at most as many entries as items |
| `AltNames.AltNames` | csrgen.py:36-41 | The first entry is `DNS.1` for the CN. Every other entry is a non-empty SAN at 0-based position `n-2`, with `2 <= n <= len(sans)+1`, and numbers rise |
| `AltNames.Numbering` | csrgen.py:36-41 | Every non-empty SAN at 0-based position `j` is emitted as `DNS.(j+2)`, and numbers are strictly increasing across the whole list |
| `AltNames.DomainsInOrder` | csrgen.py:36-41 | The emitted domains are the CN followed by exactly the non-empty SANs in input order; the count is 1 plus the number of non-empty SANs |
| `AltNames.DenseWithoutBlanks` | csrgen.py:37-41 | With no blank SANs, the k-th SAN entry is numbered `index + k + 1`, so numbering is dense |
| `AltNames.OnlyCommonName` | csrgen.py:36 | With no SANs, only `DNS.1 = cn` is emitted |
| `AltNames.BlankLeavesGap` | csrgen.py:37-41 | `("example.com", ["", a, b])` gives DNS.1, DNS.3 and DNS.4; no DNS.2 |
| `ConfigSearch.IsProfileName` | csrgen.py:99 | A name matches `*_gen_config` iff it splits into any text followed by the literal `_gen_config` |
| `ConfigSearch.ProfileFileName` | csrgen.py:115 | `org + "_gen_config"` matches `*_gen_config`, and the organisation is recovered from it |
| `ConfigSearch.ProfileFileNameOfOrg` | csrgen.py:99 | Every name matching `*_gen_config` is the profile file name of the organisation it encodes |
| `ConfigSearch.ProfileFileNameInjective` | csrgen.py:115 | Two organisations with the same profile file name are the same organisation |
| `ConfigSearch.ProfileNames` | csrgen.py:99 | The filter keeps exactly the listed names that end in `_gen_config`, each as many times as it is listed, and keeps nothing else |
| `ConfigSearch.ProfileNamesAppend` | csrgen.py:99 | Filtering a concatenated listing is the concatenation of the filtered parts |
| `CsrGen.Main` | csrgen.py:96-121 | `config` always writes a profile and `csr` never does; `csr` stops with the no-config message iff no profile is found, and reaches gen_csr iff exactly one is found; `main` never yields the invalid-domain error. `CsrResolution` gives the whole case split |
| `CsrGen.CsrInvocation` | csrgen.py:55-76 | A `csr` run ends with the invalid-domain error iff `check_domain` rejects `-d`; otherwise its outcome is that of `main`, which does not read the domain |
| `CsrGen.CsrResolution` | csrgen.py:98-111 | `csr` gives: 0 profiles → no-config stop; 1 → gen_csr; more than 1 with no org → ask for `-o`; more than 1 with an org → nothing |
| `CsrGen.AmbiguousNeverGenerates` | csrgen.py:103-106 | With more than one profile, gen_csr is never reached, and the outcome does not depend on the filesystem |
| `CsrGen.ConfigWritesProfile` | csrgen.py:113-121 | `config` writes a file named `org + "_gen_config"`, which the search finds and maps back to `org`, holding the rendered profile whose last entry is `O = org` |
| `CsrGen.ConfigThenCsr` | csrgen.py:97-121 | In a directory with no profiles, after `config` writes one, `csr` reaches gen_csr |
| `CsrGen.SecondProfileAmbiguous` | csrgen.py:103-109 | With one profile already present, writing a second one makes `csr` ask for `-o`, or do nothing if an org is given |
| `CsrGen.DomainUnused` | csrgen.py:76-111 | Any two accepted `-d` values give the same outcome, and that outcome is never the invalid-domain error |

## Left out

- Argument parsing is not modelled: argparse wiring, help output, the no-sub-command exit and the `exit()` calls (csrgen.py:68-90, 101-102, 108-109). The model returns outcomes as a datatype.
- The filesystem is abstract. `os.stat` is a predicate, `os.listdir` is a sequence of names, and opening, writing and closing the profile file is the `ProfileWritten` outcome.
- CsrGen.Main: for `config` it always returns `ProfileWritten`. A failing `open(config_file_name, "w")` (csrgen.py:118) is not modelled, for example an organisation containing `/` or a directory that cannot be written; Python raises there and no file is written.
- The printed messages are not modelled, including "Creating config template file".
- Jinja2 itself is not modelled. The model gives the meaning of this one template under Jinja2's defaults: no autoescape, `trim_blocks` and `lstrip_blocks` off, one trailing newline removed, and `None` rendered as `None`.
- The `alt_names` lines are modelled as (number, domain) pairs. The decimal text of `DNS.<n> = <domain>` is not modelled.
- `gen_csr` (csrgen.py:92-93) only prints a line, so reaching it is the outcome.
- `-k` is converted by `check_file`. Its result never reaches `main`, so only `CheckFile` models it.
- fnmatch case folding on Windows is not modelled. The model uses POSIX matching, which compares names as they are.
- Features of other revisions of the tool are not modelled because this file does not have them: lower-casing, SAN-count limits, reading domain-list files, key validation, and running `openssl`.
