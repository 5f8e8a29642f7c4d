/**
 * Entities shared by the dashboard components: the catalog entry `Subject`,
 * the learning-path `CoreSubject` with its topics, the built-in catalog,
 * and the order-preserving sublist relation the list filters are stated in.
 */
module Subjects {

  datatype Option<T> = None | Some(value: T)

  /** A catalog entry as shown on the dashboards. */
  datatype Subject = Subject(
    id: string,
    name: string,
    icon: string,
    description: string,
    color: string,
    totalTopics: int,
    completedTopics: int,
    difficulty: string)

  /** A topic of a learning-path subject; only its completion flag is used. */
  datatype Topic = Topic(isCompleted: bool)

  /** A learning-path subject, converted to a `Subject` when it is opened. */
  datatype CoreSubject = CoreSubject(
    id: string,
    name: string,
    description: string,
    color: string,
    topics: seq<Topic>,
    difficulty: string)

  /** `a` is `b` with some elements deleted and the rest kept in order. */
  predicate IsSubseq<T(==)>(a: seq<T>, b: seq<T>)
    decreases |b|
  {
    if b == [] then a == []
    else (a != [] && a[0] == b[0] && IsSubseq(a[1..], b[1..])) || IsSubseq(a, b[1..])
  }

  /** What is left after deleting was already there. */
  lemma {:induction false} SubseqElements<T>(a: seq<T>, b: seq<T>)
    requires IsSubseq(a, b)
    ensures forall x :: x in a ==> x in b
    decreases |b|
  {
    if b != [] {
      if a != [] && a[0] == b[0] && IsSubseq(a[1..], b[1..]) {
        SubseqElements(a[1..], b[1..]);
        assert a == [a[0]] + a[1..];
      } else {
        SubseqElements(a, b[1..]);
      }
    }
  }

  /** Every id of the catalog names one subject only. */
  predicate UniqueIds(catalog: seq<Subject>) {
    forall i, j :: 0 <= i < j < |catalog| ==> catalog[i].id != catalog[j].id
  }

  /** The six subjects of the built-in catalog. */
  const Catalog: seq<Subject> := [
    Subject("math", "Mathematics", "Calculator", "Algebra, Calculus, Geometry, and Statistics",
            "from-blue-500 to-blue-600", 24, 18, "Intermediate"),
    Subject("physics", "Physics", "Atom", "Mechanics, Thermodynamics, Electromagnetism",
            "from-purple-500 to-purple-600", 20, 12, "Advanced"),
    Subject("chemistry", "Chemistry", "FlaskConical", "Organic, Inorganic, and Physical Chemistry",
            "from-green-500 to-green-600", 18, 15, "Intermediate"),
    Subject("biology", "Biology", "Dna", "Cell Biology, Genetics, Ecology, and Evolution",
            "from-emerald-500 to-emerald-600", 22, 20, "Beginner"),
    Subject("history", "History", "Scroll", "World History, Ancient Civilizations, Modern Era",
            "from-amber-500 to-amber-600", 16, 10, "Beginner"),
    Subject("literature", "Literature", "BookOpen", "Classic Literature, Poetry, Writing Techniques",
            "from-rose-500 to-rose-600", 14, 8, "Intermediate")
  ]
}
