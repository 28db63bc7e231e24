/**
  The skills data and `getAllSkills`, which lists every skill name, category
  by category, in the order the data declares them.
 */
module Skills {

  datatype Skill = Skill(name: string, level: int)
  datatype Category = Category(name: string, skills: seq<Skill>)

  const SkillsData: seq<Category> := [
    Category("Languages", [
      Skill("Python", 5), Skill("Java", 5), Skill("JavaScript", 4), Skill("TypeScript", 4),
      Skill("SQL", 4), Skill("HTML/CSS", 5), Skill("VBA", 3)]),
    Category("Frameworks & Libraries", [
      Skill("React", 4), Skill("Django", 4), Skill("Spring Boot", 4), Skill("PyTorch", 4),
      Skill("Pandas", 5), Skill("NumPy", 5), Skill("Matplotlib", 4)]),
    Category("Developer Tools", [
      Skill("Git", 5), Skill("GitHub", 5), Skill("Docker", 4), Skill("Postman", 4),
      Skill("VS Code", 5), Skill("PyCharm", 4), Skill("IntelliJ", 4)]),
    Category("Databases & APIs", [
      Skill("MongoDB", 5), Skill("REST APIs", 5), Skill("SQL Databases", 4), Skill("API Design", 4)]),
    Category("Technologies & Platforms", [
      Skill("Active Directory", 4), Skill("Okta", 4), Skill("ServiceNow", 3), Skill("CrowdStrike", 4),
      Skill("Itential", 3), Skill("Palo Alto", 3), Skill("Elastic", 3)]),
    Category("Specializations", [
      Skill("Machine Learning", 4), Skill("NLP", 4), Skill("Cybersecurity", 4),
      Skill("Cloud Engineering", 3), Skill("Data Analysis", 5)])
  ]

  const MinLevel: int := 1
  const MaxLevel: int := 5

  // ---------------------------------------------------------------------------
  // Reference definitions
  // ---------------------------------------------------------------------------

  /** The names of the skills, in order. */
  function Names(skills: seq<Skill>): seq<string> {
    seq(|skills|, k requires 0 <= k < |skills| => skills[k].name)
  }

  /** Every category's skill names, categories in order. */
  function Flatten(cats: seq<Category>): seq<string> {
    if cats == [] then [] else Flatten(cats[..|cats| - 1]) + Names(cats[|cats| - 1].skills)
  }

  /** How many skills the categories hold together. */
  function SkillCount(cats: seq<Category>): nat {
    if cats == [] then 0 else SkillCount(cats[..|cats| - 1]) + |cats[|cats| - 1].skills|
  }

  // ---------------------------------------------------------------------------
  // getAllSkills
  // ---------------------------------------------------------------------------

  /** `getAllSkills`: push each skill's name, category by category. */
  method GetAllSkills(cats: seq<Category>) returns (all: seq<string>)
    ensures all == Flatten(cats)
    ensures |all| == SkillCount(cats)
  {
    all := [];
    var i := 0;
    while i < |cats|
      invariant 0 <= i <= |cats|
      invariant all == Flatten(cats[..i])
    {
      var skills := cats[i].skills;
      var j := 0;
      while j < |skills|
        invariant 0 <= j <= |skills|
        invariant all == Flatten(cats[..i]) + Names(skills[..j])
      {
        all := all + [skills[j].name];
        j := j + 1;
      }
      assert skills[..j] == skills;
      assert cats[..i + 1][..i] == cats[..i];
      i := i + 1;
    }
    assert cats[..i] == cats;
    FlattenLength(cats);
  }

  // ---------------------------------------------------------------------------
  // What the list promises
  // ---------------------------------------------------------------------------

  lemma {:induction false} FlattenLength(cats: seq<Category>)
    ensures |Flatten(cats)| == SkillCount(cats)
  {
    if cats != [] {
      FlattenLength(cats[..|cats| - 1]);
    }
  }

  /** Where category `c`'s skills start in the list. */
  function Offset(cats: seq<Category>, c: nat): nat
    requires c <= |cats|
  {
    SkillCount(cats[..c])
  }

  /** Skill `k` of category `c` sits at `Offset(c) + k`: categories in order, skills in order within each. */
  lemma {:induction false} FlattenPosition(cats: seq<Category>, c: nat, k: nat)
    requires c < |cats| && k < |cats[c].skills|
    ensures Offset(cats, c) + k < |Flatten(cats)|
    ensures Flatten(cats)[Offset(cats, c) + k] == cats[c].skills[k].name
    decreases |cats|
  {
    var init := cats[..|cats| - 1];
    FlattenLength(cats);
    FlattenLength(init);
    if c == |cats| - 1 {
      assert cats[..c] == init;
    } else {
      assert init[..c] == cats[..c];
      assert init[c] == cats[c];
      FlattenPosition(init, c, k);
    }
  }

  /** The list holds the names of the data's skills and nothing else. */
  lemma {:induction false} FlattenMembers(cats: seq<Category>, x: string)
    ensures x in Flatten(cats) <==>
            exists c, k :: 0 <= c < |cats| && 0 <= k < |cats[c].skills| && cats[c].skills[k].name == x
    decreases |cats|
  {
    if cats != [] {
      var init := cats[..|cats| - 1];
      var last := cats[|cats| - 1];
      FlattenMembers(init, x);
      if x in Flatten(cats) {
        if x in Flatten(init) {
          var c, k :| 0 <= c < |init| && 0 <= k < |init[c].skills| && init[c].skills[k].name == x;
          assert cats[c] == init[c];
        } else {
          var k :| 0 <= k < |last.skills| && Names(last.skills)[k] == x;
          assert cats[|cats| - 1].skills[k].name == x;
        }
      } else {
        forall c, k | 0 <= c < |cats| && 0 <= k < |cats[c].skills|
          ensures cats[c].skills[k].name != x
        {
          if c < |cats| - 1 {
            assert init[c] == cats[c];
          } else {
            assert Names(last.skills)[k] == cats[c].skills[k].name;
          }
        }
      }
    }
  }

  // ---------------------------------------------------------------------------
  // The shipped data
  // ---------------------------------------------------------------------------

  predicate LevelsInRange(cats: seq<Category>) {
    forall c, k :: 0 <= c < |cats| && 0 <= k < |cats[c].skills| ==>
      MinLevel <= cats[c].skills[k].level <= MaxLevel
  }

  lemma SkillsDataShape()
    ensures |SkillsData| == 6
    ensures SkillCount(SkillsData) == 37
    ensures LevelsInRange(SkillsData)
  {
    var d := SkillsData;
    assert SkillCount(d[..0]) == 0;
    forall n | 1 <= n <= 6 ensures d[..n][..n - 1] == d[..n - 1] {}
    assert SkillCount(d[..1]) == 7;
    assert SkillCount(d[..2]) == 14;
    assert SkillCount(d[..3]) == 21;
    assert SkillCount(d[..4]) == 25;
    assert SkillCount(d[..5]) == 32;
    assert SkillCount(d[..6]) == 37;
    assert d[..6] == d;
  }

  /** The shipped list has 37 names, in the data's order. */
  method AllSkillsOfData() returns (all: seq<string>)
    ensures |all| == 37
    ensures all[0] == "Python" && all[36] == "Data Analysis"
  {
    all := GetAllSkills(SkillsData);
    SkillsDataShape();
    FlattenPosition(SkillsData, 0, 0);
    FlattenPosition(SkillsData, 5, 4);
    assert Offset(SkillsData, 5) == 32;
  }
}
