/**
 * The syllabus table of app/page.tsx: class level -> subject -> chapters.
 * Four classes are curated; the module-level loop then fills every other
 * class from 1 to 12 with the generic template. The subject and chapter
 * menus shown during selection are lookups into the filled table.
 */
module Syllabus {

  import opened Wrappers

  /** One subject of a class with its chapters, in display order. */
  datatype SubjectEntry = SubjectEntry(subject: string, chapters: seq<string>)

  /** The subjects of one class, in the order their keys were written. */
  type SubjectMap = seq<SubjectEntry>

  /** The class levels offered on the home screen. */
  predicate IsClassLevel(c: int)
  {
    1 <= c <= 12
  }

  /** The template used for every class without curated content. */
  function GenericSyllabus(): SubjectMap
  {
    [ SubjectEntry("Maths", ["General Math", "Algebra", "Geometry"]),
      SubjectEntry("Science", ["General Science", "Environment", "Physics Basics"]),
      SubjectEntry("English", ["Grammar", "Vocabulary", "Comprehension"]),
      SubjectEntry("Social Science", ["History", "Civics", "Geography"]) ]
  }

  /** The table as written, before the gaps are filled. */
  function CuratedSyllabus(): map<int, SubjectMap>
  {
    map[
      1 := [ SubjectEntry("Maths", ["Numbers", "Addition", "Subtraction"]),
             SubjectEntry("English", ["Alphabet", "Words"]),
             SubjectEntry("EVS", ["My Family", "Plants"]) ],
      9 := [ SubjectEntry("Maths", ["Number Systems", "Polynomials", "Lines & Angles"]),
             SubjectEntry("Science", ["Matter in Our Surroundings", "Force and Laws"]),
             SubjectEntry("English", ["Beehive Ch 1", "Beehive Ch 2"]),
             SubjectEntry("Social Science", ["French Revolution", "India - Size and Location"]) ],
      10 := [ SubjectEntry("Maths", ["Real Numbers", "Polynomials", "Trigonometry"]),
              SubjectEntry("Science", ["Chemical Reactions", "Acids Bases Salts", "Life Processes"]),
              SubjectEntry("English", ["A Letter to God", "Nelson Mandela"]),
              SubjectEntry("Social Science", ["Nationalism in Europe", "Resources"]) ],
      12 := [ SubjectEntry("Maths", ["Relations", "Calculus", "Vectors"]),
              SubjectEntry("Physics", ["Electrostatics", "Magnetism", "Optics"]),
              SubjectEntry("Chemistry", ["Solid State", "Electrochemistry", "Solutions"]) ]
    ]
  }

  /**
   * A usable menu for one class: at least one subject, no subject listed
   * twice, and every subject with at least one chapter.
   */
  predicate WellFormedSubjects(sm: SubjectMap)
  {
    && |sm| > 0
    && (forall i, j :: 0 <= i < j < |sm| ==> sm[i].subject != sm[j].subject)
    && (forall i :: 0 <= i < |sm| ==> |sm[i].chapters| > 0)
  }

  /**
   * `after` is `before` with the gaps filled: every class level has an
   * entry, entries already present are untouched, and each class that had
   * none now has the generic template.
   */
  ghost predicate FilledFrom(before: map<int, SubjectMap>, after: map<int, SubjectMap>)
  {
    && (forall c :: c in after <==> c in before || IsClassLevel(c))
    && (forall c :: c in before ==> after[c] == before[c])
    && (forall c :: IsClassLevel(c) && c !in before ==> after[c] == GenericSyllabus())
  }

  /** The module-level table, which the gap-filling loop updates in place. */
  class SyllabusTable {
    var entries: map<int, SubjectMap>

    constructor ()
      ensures entries == CuratedSyllabus()
    {
      entries := CuratedSyllabus();
    }

    /** For every class 1..12 without an entry, install the generic template. */
    method FillGaps()
      modifies this
      ensures FilledFrom(old(entries), entries)
    {
      var i := 1;
      while i <= 12
        invariant 1 <= i <= 13
        invariant forall c :: c in entries <==> c in old(entries) || 1 <= c < i
        invariant forall c :: c in old(entries) ==> entries[c] == old(entries)[c]
        invariant forall c :: 1 <= c < i && c !in old(entries) ==> entries[c] == GenericSyllabus()
      {
        if i !in entries {
          entries := entries[i := GenericSyllabus()];
        }
        i := i + 1;
      }
    }
  }

  /** Builds the table as the module does at load time: the curated entries, then the fill loop. */
  method BuildSyllabus() returns (table: SyllabusTable)
    ensures fresh(table)
    ensures FilledFrom(CuratedSyllabus(), table.entries)
  {
    table := new SyllabusTable();
    table.FillGaps();
  }

  lemma GenericSyllabusWellFormed()
    ensures WellFormedSubjects(GenericSyllabus())
  {
  }

  lemma CuratedSyllabusWellFormed(c: int)
    requires c in CuratedSyllabus()
    ensures WellFormedSubjects(CuratedSyllabus()[c])
  {
  }

  /**
   * After the fill, the table has exactly the classes 1..12, the curated
   * classes 1, 9, 10 and 12 keep their own menus, every other class has the
   * generic menu, and every class offers a usable menu.
   */
  lemma FilledSyllabusComplete(m: map<int, SubjectMap>)
    requires FilledFrom(CuratedSyllabus(), m)
    ensures forall c :: c in m <==> IsClassLevel(c)
    ensures forall c :: c in CuratedSyllabus() ==> c in {1, 9, 10, 12} && m[c] == CuratedSyllabus()[c]
    ensures forall c :: IsClassLevel(c) && c !in {1, 9, 10, 12} ==> m[c] == GenericSyllabus()
    ensures forall c :: IsClassLevel(c) ==> WellFormedSubjects(m[c])
  {
    var curated := CuratedSyllabus();
    assert curated.Keys == {1, 9, 10, 12};
    forall c | IsClassLevel(c)
      ensures WellFormedSubjects(m[c])
    {
      if c in curated {
        CuratedSyllabusWellFormed(c);
      } else {
        GenericSyllabusWellFormed();
      }
    }
  }

  // ---------------------------------------------------------------------
  // Menus
  // ---------------------------------------------------------------------

  /** The subject names of one class, in order (`Object.keys`). */
  function SubjectNames(sm: SubjectMap): (r: seq<string>)
    ensures |r| == |sm|
    ensures forall i :: 0 <= i < |sm| ==> r[i] == sm[i].subject
  {
    seq(|sm|, i requires 0 <= i < |sm| => sm[i].subject)
  }

  /** The chapters stored under `subject`, if the class has that subject. */
  function ChaptersOf(sm: SubjectMap, subject: string): (r: Option<seq<string>>)
    ensures r.None? <==> forall i :: 0 <= i < |sm| ==> sm[i].subject != subject
    ensures r.Some? ==> exists i :: 0 <= i < |sm| && sm[i].subject == subject && sm[i].chapters == r.value
  {
    if sm == [] then None
    else if sm[0].subject == subject then Some(sm[0].chapters)
    else
      var r := ChaptersOf(sm[1..], subject);
      assert forall i :: 1 <= i < |sm| ==> sm[i] == sm[1..][i - 1];
      r
  }

  /** The subject menu: the subjects of the selected class, or none when no class (or an unknown one) is selected. */
  function Subjects(table: map<int, SubjectMap>, cls: Option<int>): (r: seq<string>)
    ensures cls.Some? && cls.value in table ==> r == SubjectNames(table[cls.value])
    ensures cls.None? || cls.value !in table ==> r == []
    ensures forall sub :: sub in r <==>
      cls.Some? && cls.value in table && exists i :: 0 <= i < |table[cls.value]| && table[cls.value][i].subject == sub
  {
    if cls.Some? && cls.value in table then SubjectNames(table[cls.value]) else []
  }

  /** The chapter menu: the chapters of the selected subject, or none when the class or the subject is unknown. */
  function Topics(table: map<int, SubjectMap>, cls: Option<int>, subject: Option<string>): (r: seq<string>)
    ensures subject.None? || cls.None? || cls.value !in table ==> r == []
  {
    if cls.Some? && cls.value in table && subject.Some? then
      match ChaptersOf(table[cls.value], subject.value)
      case Some(chapters) => chapters
      case None => []
    else []
  }

  /** A subject that is not on the class's subject menu has an empty chapter menu. */
  lemma TopicsOfAbsentSubject(table: map<int, SubjectMap>, cls: Option<int>, subject: string)
    requires subject !in Subjects(table, cls)
    ensures Topics(table, cls, Some(subject)) == []
  {
    if cls.Some? && cls.value in table {
      var sm := table[cls.value];
      forall i | 0 <= i < |sm|
        ensures sm[i].subject != subject
      {
        assert SubjectNames(sm)[i] == sm[i].subject;
      }
    }
  }

  /**
   * On a usable menu, a subject has a non-empty chapter menu exactly when it
   * is on the subject menu, and the chapter menu is that subject's chapters.
   */
  lemma TopicsOfListedSubject(table: map<int, SubjectMap>, cls: int, subject: string)
    requires cls in table && WellFormedSubjects(table[cls])
    ensures Topics(table, Some(cls), Some(subject)) != [] <==> subject in Subjects(table, Some(cls))
    ensures forall i :: 0 <= i < |table[cls]| && table[cls][i].subject == subject ==>
              Topics(table, Some(cls), Some(subject)) == table[cls][i].chapters
  {
    var sm := table[cls];
    if subject in Subjects(table, Some(cls)) {
      var k :| 0 <= k < |sm| && SubjectNames(sm)[k] == subject;
      assert sm[k].subject == subject;
    } else {
      TopicsOfAbsentSubject(table, Some(cls), subject);
    }
  }
}
