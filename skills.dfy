/** The skills catalog: categories, cards, the category filter and the long
    description shown on a card's back face. */
module Skills {
  import opened Language

  /** `SkillCategory`, including the pseudo-category `'all'`. */
  datatype SkillCategory =
    | All | Frontend | Backend | Architectures | Patterns | Methodologies
    | Practices | Mobile | Tools | Desktop | Windows

  datatype SkillCard = SkillCard(
    title: string,
    description: string,
    percent: int,
    category: SkillCategory,
    icon: string)

  /** Whether the active filter lets a card through. */
  predicate Shows(f: SkillCategory, s: SkillCard) {
    f == All || s.category == f
  }

  /** `skills.filter((skill) => activeFilter === 'all' || skill.category === activeFilter)` */
  function FilterSkills(skills: seq<SkillCard>, f: SkillCategory): (r: seq<SkillCard>)
    ensures |r| <= |skills|
    ensures forall s :: s in r <==> s in skills && Shows(f, s)
  {
    if skills == [] then []
    else (if Shows(f, skills[0]) then [skills[0]] else []) + FilterSkills(skills[1..], f)
  }

  /** The filter `'all'` shows the whole catalog, unchanged and in order. */
  lemma {:induction false} FilterAllIsCatalog(skills: seq<SkillCard>)
    ensures FilterSkills(skills, All) == skills
  {
    if skills != [] {
      FilterAllIsCatalog(skills[1..]);
    }
  }

  /** Filtering commutes with concatenation: the cards kept keep their
      relative order. */
  lemma {:induction false} FilterPreservesOrder(a: seq<SkillCard>, b: seq<SkillCard>, f: SkillCategory)
    ensures FilterSkills(a + b, f) == FilterSkills(a, f) + FilterSkills(b, f)
  {
    if a == [] {
      assert a + b == b;
    } else {
      assert (a + b)[0] == a[0];
      assert (a + b)[1..] == a[1..] + b;
      FilterPreservesOrder(a[1..], b, f);
    }
  }

  /** Any filter other than `'all'` keeps exactly the cards of that category. */
  lemma {:induction false} FilterKeepsOnlyCategory(skills: seq<SkillCard>, f: SkillCategory)
    requires f != All
    ensures forall i :: 0 <= i < |FilterSkills(skills, f)| ==> FilterSkills(skills, f)[i].category == f
    ensures forall i :: 0 <= i < |skills| && skills[i].category == f ==> skills[i] in FilterSkills(skills, f)
  {
    var r := FilterSkills(skills, f);
    forall i | 0 <= i < |r|
      ensures r[i].category == f
    {
      assert r[i] in r;
    }
  }

  /** Applying the same filter twice changes nothing. */
  lemma {:induction false} FilterIdempotent(skills: seq<SkillCard>, f: SkillCategory)
    ensures FilterSkills(FilterSkills(skills, f), f) == FilterSkills(skills, f)
  {
    if skills != [] {
      FilterIdempotent(skills[1..], f);
      if Shows(f, skills[0]) {
        var rest := FilterSkills(skills[1..], f);
        assert ([skills[0]] + rest)[0] == skills[0];
        assert ([skills[0]] + rest)[1..] == rest;
      } else {
        assert [] + FilterSkills(skills[1..], f) == FilterSkills(skills[1..], f);
      }
    }
  }

  /** `getSkillDeepDescription`: the card's description, one space, then the
      localized detail text of its category. */
  function DeepDescription(skill: SkillCard, lang: Lang, detail: (Lang, SkillCategory) -> string): (r: string)
    ensures |r| == |skill.description| + 1 + |detail(lang, skill.category)|
    ensures r[..|skill.description|] == skill.description
    ensures r[|skill.description|] == ' '
    ensures r[|skill.description| + 1..] == detail(lang, skill.category)
  {
    skill.description + " " + detail(lang, skill.category)
  }
}
