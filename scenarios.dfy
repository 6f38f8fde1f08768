/** Clients of the profile that replay the behaviours `tests/test_about.py`
    checks. The exact texts of `__str__` and `__repr__` are derived from the
    parse contracts of `ToString` and `ToDebugString` together with the
    lemmas that a parsed text is exactly the rendered one. Each client builds
    its own object, so nothing outside it changes. */
module AboutScenarios {
  import opened KgrvAbout

  /** `About()` with no name: the default name, its link and the default lists. */
  method DefaultProfile(now: Timestamp) returns (info: Info)
    ensures info.name == "kogriv" && info.github == "https://github.com/kogriv"
    ensures info.skills == ["Python", "JavaScript", "Git", "Docker", "SQL", "MQL5"]
    ensures |info.projects| == 3 && ContainsText(info.projects[0], "kgrv")
    ensures info.createdAt == now
  {
    var about := new About(now);
    DefaultsWellFormed();
    info := about.GetInfo();
  }

  /** Any name, the empty one and non-ASCII ones included, is kept as given and
      yields the link `https://github.com/<name>`. */
  method GithubForName(now: Timestamp, name: string) returns (storedName: string, github: string)
    ensures storedName == name
    ensures github == "https://github.com/" + name
  {
    var about := new About(now, name);
    storedName, github := about.name, about.github;
  }

  /** Adding a skill the defaults lack (the empty string included) appends it
      once; adding it again leaves the list as it was. */
  method AddSkillTwice(now: Timestamp, skill: string)
    returns (initial: seq<string>, once: seq<string>, twice: seq<string>)
    requires skill !in DefaultSkills
    ensures initial == DefaultSkills
    ensures once == initial + [skill] && skill in once
    ensures twice == once
  {
    var about := new About(now, "TestUser");
    initial := about.GetSkills();
    about.AddSkill(skill);
    once := about.GetSkills();
    about.AddSkill(skill);
    twice := about.GetSkills();
  }

  /** The same for projects. */
  method AddProjectTwice(now: Timestamp, project: string)
    returns (initial: seq<string>, once: seq<string>, twice: seq<string>)
    requires project !in DefaultProjects
    ensures initial == DefaultProjects
    ensures once == initial + [project] && project in once
    ensures twice == once
  {
    var about := new About(now, "TestUser");
    initial := about.GetProjects();
    about.AddProject(project);
    once := about.GetProjects();
    about.AddProject(project);
    twice := about.GetProjects();
  }

  /** Extending what `GetSkills` returned leaves the object's own list as it was. */
  method SkillsCopyIsIndependent(now: Timestamp) returns (copy: seq<string>, live: seq<string>)
    ensures "TestSkill" in copy && "TestSkill" !in live
    ensures live == DefaultSkills
  {
    var about := new About(now, "TestUser");
    copy := about.GetSkills();
    copy := copy + ["TestSkill"];
    live := about.skills;
  }

  /** `__str__` of a fresh object named `TestUser`: six skills, three projects. */
  method SummaryOfFresh(now: Timestamp) returns (text: string)
    ensures text == "About(TestUser): 6 навыков, 3 проектов"
  {
    var about := new About(now, "TestUser");
    text := about.ToString();
    SummaryParseExact(text, "TestUser", 6, 3);
    SummaryOfSixAndThree();
  }

  /** `__str__` reports the counts at call time: two new skills and one new
      project on a default object give eight and four. */
  method SummaryAfterAdds(now: Timestamp) returns (text: string)
    ensures text == "About(kogriv): 8 навыков, 4 проектов"
  {
    var about := new About(now);
    assert "Machine Learning" !in about.skills;
    about.AddSkill("Machine Learning");
    assert |about.skills| == 7;
    assert "Data Science" !in about.skills;
    about.AddSkill("Data Science");
    assert "ML проект" !in about.projects;
    about.AddProject("ML проект");
    text := about.ToString();
    SummaryParseExact(text, "kogriv", 8, 4);
    SummaryOfEightAndFour();
  }

  /** The texts the scenarios expect, written out. */
  lemma SummaryOfSixAndThree()
    ensures Summary("TestUser", 6, 3) == "About(TestUser): 6 навыков, 3 проектов"
  {
  }

  lemma SummaryOfEightAndFour()
    ensures Summary("kogriv", 8, 4) == "About(kogriv): 8 навыков, 4 проектов"
  {
  }

  lemma DebugSummaryOfSixAndThree()
    ensures DebugSummary("TestUser", 6, 3) == "About(name='TestUser', skills=6, projects=3)"
  {
  }

  /** `__repr__` of a fresh object named `TestUser`. */
  method DebugStringOfFresh(now: Timestamp) returns (text: string)
    ensures text == "About(name='TestUser', skills=6, projects=3)"
  {
    var about := new About(now, "TestUser");
    text := about.ToDebugString();
    DebugSummaryParseExact(text, "TestUser", 6, 3);
    DebugSummaryOfSixAndThree();
  }
}
