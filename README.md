# maat2 rule pipeline, modelled in Dafny

maat2 is a make-like build engine. A build script is mostly host (Python)
code. Some of its lines are rule headers of the form `targets: sources`, and
the lines indented under a header are that rule's action. This project models
the pipeline that turns such a script into a database of rules and the
database into an ordered list of jobs:

- **The script translator** (`Script.eval` in `maat.py`) is a two-state line
  scanner.
  - It copies host lines and replaces each header with `def f():`.
  - It copies the indented body.
  - When the rule ends it emits a `pass` line (if needed) and a
    `fun_rule([...], [...], f, "<path>", <line>)` registration line.
- **`fun_rule`** builds a rule located at its file and line, adds it to the
  database, and fixes the default goal once.
- **The rule database** (`maat/rule.py`) keeps the rules in order plus a
  map from target to rule, where the last registration wins.
- **The sequential maker** (`maat/make.py`) walks the database depth first
  from the goals. It lists a job for every rule that needs an update, with
  dependencies first.
- **The filter combinators, `filter()`, `as_list` and the string part of
  `Path`** come from `maat/common.py`.

Files:

- `wrappers.dfy` holds `Option` and `Result`.
- `pystring.dfy` holds the Python string operations the engine relies on:
  `str.split()`, `sep.join`, and `%d`.
- `common.dfy` is `maat/common.py`.
- `rule.dfy` is `maat/rule.py`.
- `make.dfy` is `maat/make.py`.
- `script.dfy` holds the translator and `fun_rule` from `maat.py`.
  - The translator is a value-level specification (`Translate`, one `Step`
    per line).
  - `Script.Eval` is the imperative loop, proved to generate exactly that
    text.
- `blocks.dfy` reads the script format as a grammar of blocks: a host line,
  or a rule made of header, body and the line that ended it. It proves that
  the scanner generates exactly what the blocks call for. This is where the
  behaviour of the format is stated:
  - every line lands in exactly one block;
  - every rule yields exactly one registration, naming the line after its
    header;
  - a terminator line is never read as a header;
  - `pass` is emitted for an empty body, and at end of input also for a
    one-line body.

The collector's walk is specified as a value (`Make.Collected`): from the
jobs listed so far, the names made ready and the name reported impossible,
it gives the state after `collect(goal)`. `SeqMaker.Collect` and
`SeqMaker.Make` are proved to produce exactly that state. On a database
whose stale rules have no dependency cycle, the walk is proved to end and
to keep this invariant (`Make.Scheduled`):
- `ready` is exactly the targets of the listed rules;
- every listed rule needs an update;
- no rule is listed twice;
- every source made by a stale rule is made by an earlier job.

That proof relies on the database invariant that every map entry is a rule
of the database, indexed under one of its own targets (`Make.ValidIndexed`).

Where the documentation and the code differ, the model follows the code:

- The registration line records `rnum + 1`, the line after the header
  (maat.py:95), not the header line itself.
- Any line containing `:` is a rule header while outside a rule, host code
  such as `if x:` included (maat.py:32, 102-111).
- `filter()` refers to the undefined name `string` at maat/common.py:241.
  So every argument other than `None`, `True`, `False` (and the numbers
  equal to them) or a filter raises `NameError` there, lists and strings
  included. The documented `ListFilter`/`FNFilter` dispatch is not
  reachable.

## Model

| member | source | states |
|---|---|---|
| PyString.Split | maat.py:109-110 | `str.split()`: every piece is a non-empty run of non-whitespace |
| PyString.SplitJoin | maat.py:109-110 | splitting the space-join of words gives the same words back, so the targets listed by `__repr__` split back to the rule's targets |
| PyString.JoinAppend | maat.py:93-94 | `sep.join` of two non-empty lists one after the other is the two joins with `sep` between them |
| PyString.JoinEnds | maat.py:93-94 | `sep.join(xs)` of a non-empty list starts with the first item and ends with the last |
| PyString.FormatNat | maat.py:95 | `%s` of a line number is a non-empty string of decimal digits |
| PyString.ParseFormatNat | maat.py:95 | the decimal text of a line number reads back as that number |
| PyString.FormatInt | maat/rule.py:53 | `%d` of a non-negative number is its decimal digits; of a negative number, '-' followed by the digits of its magnitude |
| PyString.FormatNatInjective | maat.py:95 | distinct line numbers are written differently |
| Script.Indent | maat.py:32-33 | group 1 of both patterns: the longest all-blank/tab prefix of the line, followed by a non-blank character or the end |
| Script.Content | maat.py:32 | the part of a line `.` can match: the line with at most its final newline removed |
| Script.ContentCases | maat.py:32 | the content is the line itself exactly when the line is empty or does not end in a newline; otherwise the line is the content plus "\n" |
| Script.LastColon | maat.py:32 | None exactly when there is no ':'; otherwise a position holding ':' with no ':' after it |
| Script.MatchRule | maat.py:32 | `rule_re` matches exactly when the line's content holds a ':', and the groups split it into blank indentation, targets, the last ':' and colon-free sources |
| Script.MatchRuleUnique | maat.py:32 | any split of that shape is the one MatchRule returns: the greedy groups leave no choice |
| Script.Quoted | maat.py:93-94 | every name is wrapped in double quotes, with no escaping, in order |
| Script.RegistrationLine | maat.py:92-96 | the registration line starts with `fun_rule([` and ends with the decimal line number followed by `)` and a newline; that number reads back as the registered line |
| Script.Render | maat.py:88-111 | the text of each generated piece: a copied line as it is, `def f():` after the header's indentation, and for the end of a rule the registration line, preceded by the indented `pass` line when asked for |
| Script.Make | maat.py:88-96 | inner `make(f)`: the registration carries the targets, the sources, the path and `rnum + 1`; a `pass` line is added exactly when `num - rnum <= 1` |
| Script.StepCases | maat.py:99-117 | the four cases of one loop turn: a host line is copied; a header opens a rule and becomes `def f():`; a line no deeper than the header closes the rule (registration first, then the line); a deeper line is copied as body |
| Script.StepGrows | maat.py:99-117 | one turn counts the line, only appends to the generated source and to the registrations, and opens at most one rule |
| Script.Finish | maat.py:120-121 | after the loop the generated source and registrations only grow, and there is one registration per rule opened |
| Script.Script.Eval | maat.py:72-121 | the loop over the lines generates exactly the text of `Translate`: the pieces of the scan, plus the final `make` when the input ends inside a rule |
| Script.Maat.constructor | maat.py:38-39 | the module state starts with the given database and no default goal |
| Script.Maat.FunRule | maat.py:42-50 | the new rule has the given targets, sources, action, file and line; it is appended to the rules and indexes all its targets; `first_goal` is set to `targets[0]` only when unset; with no goal yet and no target, `targets[0]` fails after the rule was added |
| ScriptBlocks.BodyLenBounds | maat.py:113-117 | the body lines of a rule are exactly those deeper than its header, up to the first line that is not |
| ScriptBlocks.BlocksCover | maat.py:99-117 | concatenating the lines of all blocks gives back the script: every line is in exactly one block, in order |
| ScriptBlocks.BlocksWellFormed | maat.py:101-117 | every host block is a line that does not match `rule_re`; every rule block opens at a matching header, its body lines are deeper and its terminator is not |
| ScriptBlocks.BlocksNumbered | maat.py:100-107 | a rule block's recorded number is the 1-based number of its header line in the script |
| ScriptBlocks.RunCounts | maat.py:99-117 | over any run of lines the scanner counts every line, generates at least one piece per line and opens at most one rule per line |
| ScriptBlocks.TranslateCounts | maat.py:72-121 | `eval` makes at most one registration per line of the script and generates at least one piece of source per line |
| ScriptBlocks.NumberedHeader | maat.py:100-107 | in numbered blocks covering the script, a rule block's number is the 1-based number of its header line |
| ScriptBlocks.TranslateByBlocks | maat.py:99-121 | the scanner's output and registrations equal the block-by-block emission: `def`, body copies, the closing `pass`/registration, then the terminator |
| ScriptBlocks.TranslateRegistrations | maat.py:114-121 | the registrations are exactly one per rule block, in script order, each recording its targets, sources and header line + 1 |
| ScriptBlocks.HeaderEndsRule | maat.py:113-117 | a line right after a header and no deeper than it ends that rule with an empty body (which gets `pass`) and is copied, not read as a new header |
| Rules.Rule.constructor | maat/rule.py:23-27 | a new rule keeps its targets and sources, and has no file and no line |
| Rules.Rule.Fun | maat/rule.py:47-49 | a `FunRule` is such a rule whose action is the given function |
| Rules.Rule.Repr | maat/rule.py:51-53 | `repr` of a `FunRule` fails exactly when its line is unset; otherwise it starts with the space-joined targets, ':', the space-joined sources and "\n\tcode " |
| Rules.Render | maat/rule.py:51-53 | `__repr__` fails exactly when the line is unset; otherwise it is the space-joined targets, ':', the space-joined sources, then `"\n\tcode <file>:<line>\n"` |
| Rules.DataBase.constructor | maat/rule.py:34-36 | a new database has no rule and an empty map, and satisfies the map invariant |
| Rules.DataBase.Add | maat/rule.py:38-41 | the rule is appended after the unchanged earlier rules; the map maps every target of the rule to it, keeps every other key and removes none; the invariant that every map entry is a rule of the database indexed under one of its targets is kept |
| Rules.DataBase.RuleFor | maat/make.py:51 | `rule_for`: the mapped rule, or None exactly where the map has no entry (the `KeyError` branch) |
| Make.Job.constructor | maat/make.py:25-26 | a job holds the rule it was built for |
| Make.RulesOf | maat/make.py:74-76 | the rules run by the job list, one per job, in order |
| Make.Append | maat/make.py:55-56 | unless the walk has stopped, the rule's job is appended after the earlier ones and exactly the rule's targets are added to `ready`; after a fatal report nothing changes |
| Make.CollectedGrows | maat/make.py:48-59 | `collect(goal)` only appends jobs, each for a rule of the map, and only adds ready names; after a fatal report it changes nothing; it reports a name only when no rule makes it and the file cannot be read |
| Make.CollectedAllGrows | maat/make.py:53-54 | the same for collecting a list of names in turn |
| Make.AppendJob | maat/make.py:53-56 | appending a job for a stale rule not yet listed, whose sources are all settled, and adding its targets to `ready`, keeps the scheduling invariant |
| Make.ValidIndexed | maat/rule.py:38-41 | the map of a valid database indexes every rule under one of its own targets, which the scheduling lemmas assume |
| Make.NotYetListed | maat/make.py:49-56 | a rule indexed under a name not yet ready has no job yet, so no rule gets two jobs |
| Make.CollectedSchedules | maat/make.py:48-59 | on an acyclic database `collect(goal)` keeps the scheduling invariant, leaves the goal settled unless a name was reported, and lists only rules indexed under names ranked no higher than the goal |
| Make.CollectedAllSchedules | maat/make.py:53-54 | the same for collecting the sources of a rule in turn: every name is settled unless one was reported, and new jobs rank no higher than some name |
| Make.CollectedEnds | maat/make.py:48-56 | on an acyclic database the recursion of `collect(goal)` ends within the goal's rank |
| Make.CollectedAllEnds | maat/make.py:53-54 | collecting names all ranked below the bound ends |
| Make.NothingStale | maat/make.py:48-56 | goals that are ready, up to date, or readable files with no rule list no job and change nothing: `make` on up-to-date goals does nothing |
| Make.MakeSchedules | maat/make.py:61-76 | on an acyclic database `make(goals)` ends; its job list is in dependency order with no rule twice, and every job's rule has a target, so the debug print of `targets[0]` cannot fail; unless a name was reported every goal is settled, and a reported name has no rule and cannot be read |
| Make.SeqMaker.constructor | maat/make.py:45-46 | a new maker holds its database, with no job and nothing ready |
| Make.SeqMaker.Collect | maat/make.py:48-59 | `collect(goal)` leaves exactly the jobs and ready names of the walk `Collected` from the current state, and `ok` is false exactly when that walk reports a name it cannot make |
| Make.SeqMaker.CollectRule | maat/make.py:52-56 | for a goal whose rule needs an update: the sources are collected in order, stopping at a fatal report, and then the rule's job is appended and its targets made ready, as `Collected` says |
| Make.SeqMaker.Make | maat/make.py:61-76 | `make(goals)` starts from no job and nothing ready, leaves exactly the jobs and ready names of the walk `MakeWalk` over the goals in order, and runs the listed rules in list order, or none when a goal is fatal |
| Common.NewPath | maat/common.py:65-69 | a `Path` built from a `Path` copies its string; from any other value, its `str()` |
| Common.Add | maat/common.py:74-75 | `p + ext` is the path string followed by `ext` |
| Common.IsEmpty | maat/common.py:80-81 | true exactly for the empty path string |
| Common.PrefixedBy | maat/common.py:90-91 | `prefixed_by(q)` holds exactly when `str(q)` is a prefix of the path string |
| Common.AddPrefixed | maat/common.py:74-91 | a path extended with `+` is prefixed by the original |
| Common.AddAdd | maat/common.py:74-75 | two extensions in a row are one extension by the concatenation |
| Common.PrefixedByTransitive | maat/common.py:90-91 | `prefixed_by` is transitive |
| Common.PrefixedByAntisymmetric | maat/common.py:90-91 | two paths each prefixed by the other are equal |
| Common.EmptyPrefixesAll | maat/common.py:80-91 | the empty path prefixes every path |
| Common.Accept | maat/common.py:154-292 | `accept` of each filter: `Filter` accepts everything, `DenyFilter` nothing, `ListFilter` exactly the listed path strings, `NotFilter` exactly what its filter rejects, `AndFilter` what all sub-filters accept, `OrFilter` what some sub-filter accepts |
| Common.AllAccept | maat/common.py:272-276 | `AndFilter.accept` is true exactly when every sub-filter accepts |
| Common.SomeAccepts | maat/common.py:288-292 | `OrFilter.accept` is true exactly when some sub-filter accepts |
| Common.AndConsulted | maat/common.py:272-276 | `AndFilter.accept` stops at the first rejecting sub-filter; when all accept, it consults them all |
| Common.Render | maat/common.py:154-295 | `str()` of the filters: "true", "false", "one of [a, b]", and "not " followed by `str()` of the inner filter; and/or render in parentheses |
| Common.RenderAndList | maat/common.py:278-279 | `AndFilter` renders a single sub-filter as its text in parentheses, and a list made of two non-empty parts as the first part's rendering without its ')', then " and ", then the second's without its '(': any non-empty list renders as the sub-filters' texts, in order, joined by " and " |
| Common.RenderOrList | maat/common.py:294-295 | the same for `OrFilter`, joined by " or " |
| Common.RenderAll | maat/common.py:279 | the sub-filters' renderings, one per sub-filter, in order |
| Common.RenderAndPair | maat/common.py:278-279 | two sub-filters of `AndFilter` render as "(f and g)" |
| Common.RenderOrPair | maat/common.py:294-295 | two sub-filters of `OrFilter` render as "(f or g)" |
| Common.NotNot | maat/common.py:259-260 | negating a filter twice accepts the same paths |
| Common.NotAndIsOrNot | maat/common.py:259-292 | a negated conjunction accepts what the disjunction of the negations accepts |
| Common.NotOrIsAndNot | maat/common.py:259-292 | a negated disjunction accepts what the conjunction of the negations accepts |
| Common.EmptyCombinators | maat/common.py:272-295 | with no sub-filter `AndFilter` accepts everything, `OrFilter` rejects everything, and both render "()" |
| Common.MakeFilter | maat/common.py:233-241 | `filter()` succeeds exactly for None, True/1, False/0 and filters; None and True accept everything, False rejects everything, a filter is returned as is; every other argument raises `NameError` at line 241 |
| Common.MakeFilters | maat/common.py:270 | the arguments are converted in order, and the list fails exactly when one conversion fails |
| Common.MakeNot | maat/common.py:256-260 | `NotFilter(arg)` fails exactly when `filter(arg)` does, and otherwise accepts exactly what that filter rejects |
| Common.MakeAnd | maat/common.py:269-276 | `AndFilter(*args)` fails exactly when one conversion fails, and otherwise accepts exactly what every converted argument accepts |
| Common.MakeOr | maat/common.py:285-292 | `OrFilter(*args)` fails exactly when one conversion fails, and otherwise accepts exactly what some converted argument accepts |
| Common.AsList | maat/common.py:323-331 | `as_list`: None gives `[]`, a list gives itself, anything else `[x]` |
| Common.AsListIdempotent | maat/common.py:323-331 | `as_list(as_list(x)) == as_list(x)` |

## Left out

- Compiling and executing the generated source (maat.py:125-126) is not modelled. That is the host interpreter. The model stops at the generated text and the registrations it makes; `Maat.FunRule` models what each registration does.
- Script.Script.Eval: the lines are a parameter. Opening the file, which reads the global `path` at maat.py:99 rather than `self.path`, is I/O. Each line is taken as a file iterator yields it, with no newline except possibly a final one. The `mon` argument and the `env` of host bindings are not modelled.
- Make.SeqMaker.Collect: it requires only that the walk ends within the ghost recursion depth `fuel`, which covers every run whose recursion is finite. A walk that reaches a dependency cycle recurses until Python's stack overflows; that run is not modelled. Python's recursion limit (about 1000 frames by default) is not modelled either: `collect` recurses once per dependency level, so on a finite chain of stale rules deeper than that limit the source raises `RecursionError`, while the model, given enough `fuel`, completes the walk. The lemmas that prove the scheduling order and termination (`MakeSchedules`, `CollectedSchedules`, `CollectedEnds`) assume that no stale rule of the whole map depends on itself, stated by a ranking of names. That excludes terminating runs on maps holding a cycle the walk never reaches, or one broken by a target already made ready; for those runs the methods are still proved to follow `Collected`, but the order is not proved.
- Make.SeqMaker.Collect: `print_fatal` ("no way to make") is taken to end the run. `ok == false` is returned and the walk stops. The monitor is not part of this model.
- `rule_for` and `needs_update` are not defined in the files this model covers. `rule_for` is the map lookup with `KeyError` for a missing key (`DataBase.RuleFor`). `needs_update` and `os.access(goal, os.R_OK)` are function parameters.
- Make.SeqMaker.Make: running a job (`Job.make` → `rule.make`, which is not defined in the files this model covers) is left out. The model returns the rules in the order they would run. The debug print of `targets[0]` (maat/make.py:75) is output only; it cannot fail, because every listed rule is the rule of one of its own targets (`MakeSchedules`).
- Script.RegistrationLine: the registration line holds the names and path as text between double quotes, with no escaping. The registrations the model records are those texts. They are what `fun_rule` receives only when no name and not the path contains `\` or `"`. The line is also emitted at column 0, while `def f():` keeps the header's indentation (maat.py:92 against maat.py:111). For an indented header the registration therefore leaves the header's enclosing block, and an indented line after it makes the generated source fail to compile. The model records the registration in every case; it matches what runs only for headers at column 0.
- Rules.Rule.Repr: modelled for `FunRule` only (maat/rule.py:51-53); a plain `Rule` has no `__repr__` of its own in that file.
- The `Path` methods that use the file system or `os.path` are left out: `/`, `exists`, `get_mod_time`, the `relpath` methods, `norm`, `set_cur`, `is_dir`, `can_read`, `parent`, `glob`, `get_ext`, `get_base`, `get_file`, `make`, `__iter__` and `makedir`. They are library semantics or I/O.
- Common.Add: `+` is modelled for a string extension only. The source's `self.path + ext` (maat/common.py:74-75) raises `TypeError` for any other argument, a `Path` included; that error is not modelled.
- `FNFilter`, `REFilter` and `FunFilter` are left out. They wrap fnmatch, regular expressions and arbitrary callables, and `filter()` cannot reach them (line 241 fails first).
- Common.MakeFilter: Python's `==` lets any object with a custom `__eq__` compare equal to None, True or False. The model covers the built-in values only; numbers stand for every value equal to 0 or 1.
- `ListFilter` stores `str(i)` of its items. The model takes the items already as strings.
- `format_duration` (floating point), `time()`, `lookup_prog` (file system), `Delegate`/`FunDelegate`/`post_inits`, and `MaatError`/`error` (plain exception raising) are left out.
- maat/builtin.py is left out: `shell` and `echo` only forward text to the monitor.
- The command line (argparse), checking that the script file is readable, and printing the database (maat.py:130-151) are CLI glue and are left out.
