/** The developer profile of `kgrv/about.py`: a name, the GitHub link derived
    from it, two ordered lists (skills and projects) that grow only by
    duplicate-free appends, and a creation timestamp. */
module KgrvAbout {
  import opened Format

  const DefaultName: string := "kogriv"
  const GithubPrefix: string := "https://github.com/"

  const DefaultSkills: seq<string> := ["Python", "JavaScript", "Git", "Docker", "SQL", "MQL5"]

  const DefaultProjects: seq<string> := [
    "kgrv - Python пакет для экспериментов",
    "Различные скрипты автоматизации",
    "Торговые роботы на MQL5"
  ]

  /** The wall-clock reading taken at construction (`datetime.datetime.now()`),
      which the model receives as a parameter instead of reading a clock. */
  datatype Timestamp = Timestamp(year: int, month: int, day: int,
                                 hour: int, minute: int, second: int, microsecond: int)

  /** The record `get_info` returns, its fields in the source's key order. */
  datatype Info = Info(name: string, github: string, skills: seq<string>,
                       projects: seq<string>, createdAt: Timestamp)

  /** No entry occurs twice (membership is exact string equality). */
  predicate NoDuplicates(s: seq<string>) {
    forall i, j :: 0 <= i < j < |s| ==> s[i] != s[j]
  }

  /** `needle` occurs somewhere inside `hay` (Python's `needle in hay` on strings). */
  predicate ContainsText(hay: string, needle: string) {
    exists k :: 0 <= k <= |hay| - |needle| && needle <= hay[k..]
  }

  /** The list after the guarded append `if x not in s: s.append(x)`. */
  function AppendIfAbsent(s: seq<string>, x: string): (r: seq<string>)
    ensures x in r
    ensures s <= r
    ensures forall y :: y in r <==> y in s || y == x
    ensures |r| == if x in s then |s| else |s| + 1
  {
    if x in s then s else s + [x]
  }

  /** Adding the same value a second time changes nothing. */
  lemma AppendIfAbsentIdempotent(s: seq<string>, x: string)
    ensures AppendIfAbsent(AppendIfAbsent(s, x), x) == AppendIfAbsent(s, x)
  {
  }

  /** The guarded append keeps a duplicate-free list duplicate-free, and the
      added value then occurs exactly once. */
  lemma AppendIfAbsentKeepsNoDuplicates(s: seq<string>, x: string)
    requires NoDuplicates(s)
    ensures NoDuplicates(AppendIfAbsent(s, x))
    ensures multiset(AppendIfAbsent(s, x))[x] == 1
  {
    var r := AppendIfAbsent(s, x);
    if x !in s {
      assert r == s + [x];
      forall i, j | 0 <= i < j < |r| ensures r[i] != r[j] {
        if j == |s| {
          assert r[i] == s[i];
        }
      }
    }
    NoDuplicatesIffSingleOccurrence(r);
  }

  /** A list has no duplicates exactly when every entry occurs once in it. */
  lemma {:induction false} NoDuplicatesIffSingleOccurrence(s: seq<string>)
    ensures NoDuplicates(s) <==> forall x :: x in s ==> multiset(s)[x] == 1
  {
    if s != [] {
      var init, last := s[..|s| - 1], s[|s| - 1];
      assert s == init + [last];
      assert multiset(s) == multiset(init) + multiset{last};
      NoDuplicatesIffSingleOccurrence(init);
      if NoDuplicates(s) {
        assert NoDuplicates(init) by {
          forall i, j | 0 <= i < j < |init| ensures init[i] != init[j] {
            assert init[i] == s[i] && init[j] == s[j];
          }
        }
        forall i | 0 <= i < |init| ensures init[i] != last {
          assert init[i] == s[i];
        }
        forall x | x in s ensures multiset(s)[x] == 1 {
          if x != last {
            assert x in init;
          }
        }
      } else if forall x :: x in s ==> multiset(s)[x] == 1 {
        assert last in s;
        assert multiset(init)[last] == 0;
        forall x | x in init ensures multiset(init)[x] == 1 {
          assert x in s;
        }
        forall i, j | 0 <= i < j < |s| ensures s[i] != s[j] {
          if j == |s| - 1 {
            assert s[i] in init;
          } else {
            assert s[i] == init[i] && s[j] == init[j];
          }
        }
        assert false;
      }
    }
  }

  /** The fresh-object defaults: six skills, three projects, no duplicates, and
      the first project mentions the package `kgrv`. */
  lemma DefaultsWellFormed()
    ensures NoDuplicates(DefaultSkills) && |DefaultSkills| == 6
    ensures NoDuplicates(DefaultProjects) && |DefaultProjects| == 3
    ensures ContainsText(DefaultProjects[0], "kgrv")
  {
    assert "kgrv" <= DefaultProjects[0][0..];
  }

  /** The text of `__str__`: name, then the two counts. */
  function Summary(name: string, skillCount: nat, projectCount: nat): string {
    "About(" + name + "): " + NatToString(skillCount) + " навыков, "
      + NatToString(projectCount) + " проектов"
  }

  /** Reads a `__str__` text back into its name and two counts. */
  function ParseSummary(s: string): Option<(string, nat, nat)> {
    match StripSuffix(s, " проектов")
    case None => None
    case Some(s1) =>
      match SplitTrailingNumber(s1)
      case None => None
      case Some((s2, projectCount)) =>
        match StripSuffix(s2, " навыков, ")
        case None => None
        case Some(s3) =>
          match SplitTrailingNumber(s3)
          case None => None
          case Some((s4, skillCount)) =>
            match StripSuffix(s4, "): ")
            case None => None
            case Some(s5) =>
              match StripPrefix(s5, "About(")
              case None => None
              case Some(name) => Some((name, skillCount, projectCount))
  }

  /** The summary determines the name and both counts, whatever the name holds. */
  lemma SummaryRoundTrip(name: string, skillCount: nat, projectCount: nat)
    ensures ParseSummary(Summary(name, skillCount, projectCount)) == Some((name, skillCount, projectCount))
  {
    var s5 := "About(" + name;
    var s4 := s5 + "): ";
    var s3 := s4 + NatToString(skillCount);
    var s2 := s3 + " навыков, ";
    var s1 := s2 + NatToString(projectCount);
    assert Summary(name, skillCount, projectCount) == s1 + " проектов";
    StripSuffixOfConcat(s1, " проектов");
    SplitAfterNumber(s2, projectCount);
    StripSuffixOfConcat(s3, " навыков, ");
    SplitAfterNumber(s4, skillCount);
    StripSuffixOfConcat(s5, "): ");
    StripPrefixOfConcat("About(", name);
  }

  /** The converse of `SummaryRoundTrip`: a text the parser accepts is exactly
      the summary of what it parsed to, so the parse determines the text. */
  lemma SummaryParseExact(t: string, name: string, skillCount: nat, projectCount: nat)
    requires ParseSummary(t) == Some((name, skillCount, projectCount))
    ensures t == Summary(name, skillCount, projectCount)
  {
    var s1 := StripSuffix(t, " проектов").value;
    var s2 := SplitTrailingNumber(s1).value.0;
    var s3 := StripSuffix(s2, " навыков, ").value;
    var s4 := SplitTrailingNumber(s3).value.0;
    var s5 := StripSuffix(s4, "): ").value;
    assert s5 == "About(" + name;
  }

  /** The text of `__repr__`: the name in single quotes, then the two counts. */
  function DebugSummary(name: string, skillCount: nat, projectCount: nat): string {
    "About(name='" + name + "', skills=" + NatToString(skillCount)
      + ", projects=" + NatToString(projectCount) + ")"
  }

  /** Reads a `__repr__` text back into its name and two counts. */
  function ParseDebugSummary(s: string): Option<(string, nat, nat)> {
    match StripSuffix(s, ")")
    case None => None
    case Some(s1) =>
      match SplitTrailingNumber(s1)
      case None => None
      case Some((s2, projectCount)) =>
        match StripSuffix(s2, ", projects=")
        case None => None
        case Some(s3) =>
          match SplitTrailingNumber(s3)
          case None => None
          case Some((s4, skillCount)) =>
            match StripSuffix(s4, "', skills=")
            case None => None
            case Some(s5) =>
              match StripPrefix(s5, "About(name='")
              case None => None
              case Some(name) => Some((name, skillCount, projectCount))
  }

  lemma DebugSummaryRoundTrip(name: string, skillCount: nat, projectCount: nat)
    ensures ParseDebugSummary(DebugSummary(name, skillCount, projectCount)) == Some((name, skillCount, projectCount))
  {
    var s5 := "About(name='" + name;
    var s4 := s5 + "', skills=";
    var s3 := s4 + NatToString(skillCount);
    var s2 := s3 + ", projects=";
    var s1 := s2 + NatToString(projectCount);
    assert DebugSummary(name, skillCount, projectCount) == s1 + ")";
    StripSuffixOfConcat(s1, ")");
    SplitAfterNumber(s2, projectCount);
    StripSuffixOfConcat(s3, ", projects=");
    SplitAfterNumber(s4, skillCount);
    StripSuffixOfConcat(s5, "', skills=");
    StripPrefixOfConcat("About(name='", name);
  }

  /** The converse of `DebugSummaryRoundTrip`: a text the parser accepts is
      exactly the debug summary of what it parsed to. */
  lemma DebugSummaryParseExact(t: string, name: string, skillCount: nat, projectCount: nat)
    requires ParseDebugSummary(t) == Some((name, skillCount, projectCount))
    ensures t == DebugSummary(name, skillCount, projectCount)
  {
    var s1 := StripSuffix(t, ")").value;
    var s2 := SplitTrailingNumber(s1).value.0;
    var s3 := StripSuffix(s2, ", projects=").value;
    var s4 := SplitTrailingNumber(s3).value.0;
    var s5 := StripSuffix(s4, "', skills=").value;
    assert s5 == "About(name='" + name;
  }

  /** The profile object. `name`, `github` and `createdAt` are assigned once by
      the constructor and never again, so they are constants here; the two lists
      are replaced only by `AddSkill` and `AddProject`. */
  class About {
    const name: string
    const github: string
    var skills: seq<string>
    var projects: seq<string>
    const createdAt: Timestamp

    /** The object invariant: the link is derived from the name, and neither
        list holds a duplicate. */
    predicate Valid()
      reads this
    {
      github == GithubPrefix + name && NoDuplicates(skills) && NoDuplicates(projects)
    }

    /** `About(name="kogriv")`, with `now` the clock reading it stores. */
    constructor (now: Timestamp, name: string := DefaultName)
      ensures Valid()
      ensures this.name == name && github == GithubPrefix + name
      ensures skills == DefaultSkills && projects == DefaultProjects
      ensures createdAt == now
    {
      this.name := name;
      github := GithubPrefix + name;
      skills := DefaultSkills;
      projects := DefaultProjects;
      createdAt := now;
      DefaultsWellFormed();
    }

    /** `get_info`: the whole state as one record. */
    function GetInfo(): (r: Info)
      reads this
      requires Valid()
      ensures r.github == GithubPrefix + r.name
      ensures NoDuplicates(r.skills) && NoDuplicates(r.projects)
      ensures r == Info(name, github, skills, projects, createdAt)
    {
      Info(name, github, skills, projects, createdAt)
    }

    /** `get_skills`: the current skills, in order, as a value of its own. */
    function GetSkills(): (r: seq<string>)
      reads this
      requires Valid()
      ensures r == skills && NoDuplicates(r)
    {
      skills
    }

    /** `get_projects`: the current projects, in order, as a value of its own. */
    function GetProjects(): (r: seq<string>)
      reads this
      requires Valid()
      ensures r == projects && NoDuplicates(r)
    {
      projects
    }

    /** `add_skill`: appends `skill` unless an equal entry is already there.
        Only the skill list can change. */
    method AddSkill(skill: string)
      requires Valid()
      modifies this`skills
      ensures Valid()
      ensures skills == AppendIfAbsent(old(skills), skill)
      ensures skill in old(skills) ==> skills == old(skills)
      ensures skill !in old(skills) ==> skills == old(skills) + [skill]
      ensures multiset(skills)[skill] == 1
      ensures projects == old(projects)
    {
      AppendIfAbsentKeepsNoDuplicates(skills, skill);
      if skill !in skills {
        skills := skills + [skill];
      }
    }

    /** `add_project`: appends `project` unless an equal entry is already there.
        Only the project list can change. */
    method AddProject(project: string)
      requires Valid()
      modifies this`projects
      ensures Valid()
      ensures projects == AppendIfAbsent(old(projects), project)
      ensures project in old(projects) ==> projects == old(projects)
      ensures project !in old(projects) ==> projects == old(projects) + [project]
      ensures multiset(projects)[project] == 1
      ensures skills == old(skills)
    {
      AppendIfAbsentKeepsNoDuplicates(projects, project);
      if project !in projects {
        projects := projects + [project];
      }
    }

    /** `__str__`: the name and the live counts of both lists, which can be
        read back from the text. */
    function ToString(): (r: string)
      reads this
      ensures ParseSummary(r) == Some((name, |skills|, |projects|))
    {
      SummaryRoundTrip(name, |skills|, |projects|);
      Summary(name, |skills|, |projects|)
    }

    /** `__repr__`: the quoted name and the live counts of both lists, which
        can be read back from the text. */
    function ToDebugString(): (r: string)
      reads this
      ensures ParseDebugSummary(r) == Some((name, |skills|, |projects|))
    {
      DebugSummaryRoundTrip(name, |skills|, |projects|);
      DebugSummary(name, |skills|, |projects|)
    }
  }
}
