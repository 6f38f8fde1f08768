# kgrv `About` profile — a verified Dafny model

The `kgrv` package describes its developer through one class, `About`
(`kgrv/about.py`). An `About` object holds:

- a name;
- a GitHub link derived from the name once, at construction;
- two ordered lists of strings, skills and projects, each starting from a fixed default;
- a creation timestamp.

The lists grow only through `add_skill` and `add_project`. Each of these appends a value only when no equal entry is already present. The object renders itself as a record (`get_info`), as copies of its lists (`get_skills`, `get_projects`), and as two one-line texts (`__str__`, `__repr__`) that report the current list lengths.

The model has three modules:

- `Format` (`format.dfy`): Python's `str()` of a non-negative integer, as used for `len(...)` inside the f-strings. Beside it are the parsers that read such text back, and the round-trip lemmas.
- `KgrvAbout` (`about.dfy`): the class `About`. It also holds `NoDuplicates` and `AppendIfAbsent`, the specification functions the add methods are proved against. `Summary` and `DebugSummary` are the two text formats; they are the bodies of `ToString` and `ToDebugString`. Their partners are the parsers `ParseSummary` and `ParseDebugSummary`. Lemmas prove the two directions: parsing a rendered text gives back the name and counts, and a text the parser accepts is exactly the rendering of what it parsed to. The parsers accept a count only as `str()` writes it, without a leading zero.
- `AboutScenarios` (`scenarios.dfy`): clients that replay what `tests/test_about.py` checks. They obtain the exact `__str__`/`__repr__` texts from the parse contracts of `ToString` and `ToDebugString` and the exactness lemmas.

The object invariant `Valid()` says three things: `github == "https://github.com/" + name`, and neither list holds a duplicate. The constructor establishes it, and both add methods preserve it. `name`, `github` and `createdAt` are `const` fields because nothing in the class assigns them after `__init__`. Each add method's `modifies` clause names only the one list it may change.

Two details of the code that are easy to misread:

- Unlike `get_skills` and `get_projects`, `get_info` puts the object's own list objects into the dict, not copies (`kgrv/about.py:57-58`). The model does not give it a copy contract.
- `__str__` writes the Russian words `навыков` and `проектов` after the counts (`kgrv/about.py:122`). So the text after two new skills and one new project on a default object is `About(kogriv): 8 навыков, 4 проектов`.

## Model

| member | source | states |
|---|---|---|
| `KgrvAbout.About.constructor` | kgrv/about.py:23-45 | name is the argument (default `kogriv`), github is `https://github.com/` + name, the lists are the defaults, the timestamp is the clock reading passed in, and the invariant holds |
| `KgrvAbout.DefaultsWellFormed` | kgrv/about.py:32-44 | the defaults are six skills and three projects, neither list has duplicates, and the first project contains `kgrv` |
| `KgrvAbout.About.GetInfo` | kgrv/about.py:47-60 | the record carries the name, a github link derived from that name, both current lists without duplicates, and the timestamp |
| `KgrvAbout.About.GetSkills` | kgrv/about.py:62-69 | returns a value equal to the current skill list, in order and duplicate-free |
| `KgrvAbout.About.GetProjects` | kgrv/about.py:81-88 | returns a value equal to the current project list, in order and duplicate-free |
| `KgrvAbout.About.AddSkill` | kgrv/about.py:71-79 | if the skill was present the list is unchanged, otherwise it is the old list plus the skill; the skill then occurs exactly once; the invariant is kept; projects, name, github and timestamp are unchanged |
| `KgrvAbout.About.AddProject` | kgrv/about.py:90-98 | the same append-if-absent behaviour for projects; skills, name, github and timestamp are unchanged |
| `KgrvAbout.AppendIfAbsent` | kgrv/about.py:78-79 | the result extends the old list, holds exactly the old members plus the value, and is one longer exactly when the value was absent |
| `KgrvAbout.AppendIfAbsentIdempotent` | kgrv/about.py:78-79 | adding the same value twice gives the same list as adding it once |
| `KgrvAbout.AppendIfAbsentKeepsNoDuplicates` | kgrv/about.py:97-98 | a duplicate-free list stays duplicate-free, and the added value occurs exactly once |
| `KgrvAbout.NoDuplicatesIffSingleOccurrence` | kgrv/about.py:78-79 | a list has no duplicates if and only if every entry occurs exactly once in it |
| `KgrvAbout.About.ToString` | kgrv/about.py:122 | the summary text parses back to the object's name and its current skill and project counts |
| `KgrvAbout.SummaryRoundTrip` | kgrv/about.py:122 | for every name, including ones holding `): ` or digits, the summary format can be parsed back to the name and both counts |
| `KgrvAbout.SummaryParseExact` | kgrv/about.py:122 | a text the summary parser accepts is exactly the summary of the parsed name and counts, so the parse determines the text |
| `KgrvAbout.About.ToDebugString` | kgrv/about.py:131 | the debug text parses back to the object's name and its current skill and project counts |
| `KgrvAbout.DebugSummaryRoundTrip` | kgrv/about.py:131 | for every name, the debug format can be parsed back to the name and both counts |
| `KgrvAbout.DebugSummaryParseExact` | kgrv/about.py:131 | a text the debug parser accepts is exactly the debug summary of the parsed name and counts |
| `Format.NatToString` | kgrv/about.py:122 | decimal rendering of a count: non-empty, digits only, no leading zero except for 0, one character exactly below 10 |
| `Format.DigitsRoundTrip` | kgrv/about.py:122 | reading back a rendered count gives the count |
| `Format.CanonicalRoundTrip` | kgrv/about.py:122 | every digit string without a leading zero is what `str()` writes for its value |
| `Format.SplitTrailingNumber` | kgrv/about.py:122 | when it splits a number off, the text before it does not end in a digit and text plus rendered number give back the input |
| `Format.SplitAfterNumber` | kgrv/about.py:122 | a count written after text that does not end in a digit splits off again, giving back the text and the count |
| `AboutScenarios.DefaultProfile` | tests/test_about.py:29-59 | `About()` has name `kogriv`, its link, the six default skills and three projects, the first of which contains `kgrv` |
| `AboutScenarios.GithubForName` | tests/test_about.py:210-232 | any name, including the empty one and non-ASCII ones, is kept and gives `https://github.com/<name>` |
| `AboutScenarios.AddSkillTwice` | tests/test_about.py:94-112 | a skill the defaults lack, the empty string included, is appended once (the list becomes the defaults plus the skill, so it is in the list), and adding it again leaves the list unchanged |
| `AboutScenarios.AddProjectTwice` | tests/test_about.py:128-146 | a project the defaults lack, the empty string and non-ASCII values included, is appended once, and adding it again leaves the list unchanged |
| `AboutScenarios.SkillsCopyIsIndependent` | tests/test_about.py:80-92 | extending the list `get_skills` returned leaves the object's list as it was |
| `AboutScenarios.SummaryOfFresh` | tests/test_about.py:148-159 | `__str__` of a fresh `TestUser` object is `About(TestUser): 6 навыков, 3 проектов` |
| `AboutScenarios.SummaryAfterAdds` | kgrv/about.py:122 | after two new skills and one new project on a default object, `__str__` reports the live counts: `About(kogriv): 8 навыков, 4 проектов` |
| `AboutScenarios.DebugStringOfFresh` | tests/test_about.py:161-169 | `__repr__` of a fresh `TestUser` object is `About(name='TestUser', skills=6, projects=3)` |

## Left out

- `print_info` (`kgrv/about.py:100-113`) only writes lines to standard output. It is not modelled.
- The clock: `datetime.datetime.now()` becomes the constructor's `now` parameter, a `Timestamp` value that is stored once and echoed back.
- KgrvAbout.About.GetInfo: returns the timestamp as a value. The source formats it with `strftime("%Y-%m-%d %H:%M:%S")`, and that library formatting is not modelled.
- KgrvAbout.About.GetInfo: returns the lists by value. In the source the dict holds the object's own list objects. A caller that appends to them changes the object and bypasses the duplicate check. Sequence values cannot express that aliasing.
- KgrvAbout.About.GetSkills: the source also returns a distinct object (`is not`). Dafny sequences are values and have no identity, so only "equal contents, and later changes to the result do not reach the object" is stated.
- KgrvAbout.About.GetProjects: the same as for `GetSkills`.
- `name` and `github` are `const` fields. Python would let outside code reassign these attributes. The class itself never does.
- Strings are Dafny `string`s, sequences of Unicode scalar values. A Python `str` can also hold lone surrogate code points (U+D800 to U+DFFF), for example a `--name` decoded from the command line with `surrogateescape`. Names, skills and projects holding them cannot be represented. No behaviour of the class depends on them: it only compares and concatenates strings.
- `scripts/cli.py` is not part of this model: argument parsing, JSON printing and exit codes are I/O over libraries. Its only logic is applying `add_skill`/`add_project` in a loop, and the `AddSkill`/`AddProject` contracts cover that.
- `scripts/demo.py` is not part of this model: it is an interactive demonstration built from `input()` and `print`.
