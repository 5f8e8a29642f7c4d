/**
 * `getCurrentTopicName`, written identically in the bookmarked-subjects
 * dashboard and in the subject catalog: the topic a learner is on, looked up
 * by the subject's name in a fixed table and indexed by the number of
 * completed topics, clamped to the last topic.
 */
module TopicNames {
  import opened Subjects

  const MathematicsTopics: seq<string> := ["Derivatives", "Integration", "Limits", "Series", "Functions", "Algebra",
        "Geometry", "Trigonometry", "Statistics", "Probability", "Calculus", "Linear Algebra",
        "Differential Equations", "Complex Numbers", "Matrices", "Vectors", "Sequences",
        "Logarithms", "Exponentials", "Polynomials", "Rational Functions", "Conic Sections",
        "Parametric Equations", "Polar Coordinates"]
  const PhysicsTopics: seq<string> := ["Quantum Mechanics", "Thermodynamics", "Electromagnetism", "Optics",
        "Mechanics", "Waves", "Relativity", "Nuclear Physics", "Atomic Physics", "Fluid Dynamics",
        "Oscillations", "Gravitation", "Energy", "Momentum", "Electric Fields", "Magnetic Fields",
        "Circuits", "Semiconductors", "Superconductivity", "Particle Physics"]
  const ChemistryTopics: seq<string> := ["Organic Reactions", "Molecular Structure", "Kinetics", "Equilibrium",
        "Thermochemistry", "Electrochemistry", "Acids and Bases", "Redox Reactions",
        "Chemical Bonding", "Periodic Trends", "Gas Laws", "Solutions", "Crystallography",
        "Spectroscopy", "Catalysis", "Polymers", "Biochemistry", "Environmental Chemistry"]
  const BiologyTopics: seq<string> := ["Cell Biology", "Genetics", "Evolution", "Ecology", "Molecular Biology",
        "Physiology", "Anatomy", "Biochemistry", "Microbiology", "Botany", "Zoology",
        "Immunology", "Neurobiology", "Developmental Biology", "Marine Biology",
        "Conservation Biology", "Biotechnology", "Bioinformatics", "Pharmacology", "Toxicology",
        "Epidemiology", "Bioethics"]
  const HistoryTopics: seq<string> := ["Ancient Civilizations", "Medieval Period", "Renaissance", "Modern Era",
        "World Wars", "Cold War", "Industrial Revolution", "American Revolution",
        "French Revolution", "Roman Empire", "Greek Civilization", "Egyptian History",
        "Asian History", "African History", "European History", "Colonial Period"]
  const LiteratureTopics: seq<string> := ["Poetry Analysis", "Novel Studies", "Literary Criticism", "Creative Writing",
        "Shakespeare", "Modern Literature", "Classical Literature", "American Literature",
        "British Literature", "World Literature", "Drama", "Short Stories", "Essays", "Rhetoric"]

  /** The table of topics per subject name; `None` for a name it does not list. */
  function TopicsOf(subjectName: string): Option<seq<string>> {
    if subjectName == "Mathematics" then Some(MathematicsTopics)
    else if subjectName == "Physics" then Some(PhysicsTopics)
    else if subjectName == "Chemistry" then Some(ChemistryTopics)
    else if subjectName == "Biology" then Some(BiologyTopics)
    else if subjectName == "History" then Some(HistoryTopics)
    else if subjectName == "Literature" then Some(LiteratureTopics)
    else None
  }

  const GeneralTopics: string := "General Topics"
  const AdvancedTopics: string := "Advanced Topics"

  /** A row has at least one topic and no topic name is empty. */
  predicate WellFormedRow(row: seq<string>) {
    |row| > 0 && forall i :: 0 <= i < |row| ==> row[i] != ""
  }

  lemma TopicsWellFormed(subjectName: string)
    ensures TopicsOf(subjectName).Some? ==> WellFormedRow(TopicsOf(subjectName).value)
  {
    assert WellFormedRow(MathematicsTopics);
    assert WellFormedRow(PhysicsTopics);
    assert WellFormedRow(ChemistryTopics);
    assert WellFormedRow(BiologyTopics);
    assert WellFormedRow(HistoryTopics);
    assert WellFormedRow(LiteratureTopics);
  }

  function Min(a: int, b: int): int {
    if a < b then a else b
  }

  /**
   * `topics[Math.min(completedTopics, topics.length - 1)] || 'Advanced Topics'`
   * with `topics` the table row or `['General Topics']`; an index outside the
   * array yields `undefined` and an empty name is falsy, both falling back.
   */
  function CurrentTopicName(subjectName: string, completedTopics: int): (name: string)
    ensures completedTopics < 0 ==> name == AdvancedTopics
    ensures TopicsOf(subjectName).None? && completedTopics >= 0 ==> name == GeneralTopics
    ensures TopicsOf(subjectName).Some? && completedTopics >= 0 ==>
              var row := TopicsOf(subjectName).value;
              name == row[Min(completedTopics, |row| - 1)]
  {
    TopicsWellFormed(subjectName);
    var topics := match TopicsOf(subjectName) case Some(row) => row case None => [GeneralTopics];
    var index := Min(completedTopics, |topics| - 1);
    if 0 <= index < |topics| && topics[index] != "" then topics[index] else AdvancedTopics
  }

  /**
   * For a listed subject, progress beyond the end of its row stays on the
   * last topic, and any non-negative progress names a topic of the row.
   */
  lemma CurrentTopicClamped(subjectName: string, completedTopics: int)
    requires TopicsOf(subjectName).Some? && completedTopics >= 0
    ensures CurrentTopicName(subjectName, completedTopics) in TopicsOf(subjectName).value
    ensures completedTopics >= |TopicsOf(subjectName).value| ==>
              CurrentTopicName(subjectName, completedTopics) == Last(TopicsOf(subjectName).value)
  {
    TopicsWellFormed(subjectName);
  }

  function Last(row: seq<string>): string
    requires |row| > 0
  {
    row[|row| - 1]
  }

  /**
   * The topic shown for each of the six catalog subjects at its catalog
   * count, the clamp to the last topic past the end of a row, and the two
   * fallbacks.
   */
  lemma CatalogTopicNames()
    ensures CurrentTopicName("Mathematics", 18) == "Exponentials"
    ensures CurrentTopicName("Physics", 12) == "Energy"
    ensures CurrentTopicName("Chemistry", 15) == "Polymers"
    ensures CurrentTopicName("Biology", 20) == "Epidemiology"
    ensures CurrentTopicName("History", 10) == "Greek Civilization"
    ensures CurrentTopicName("Literature", 8) == "British Literature"
    ensures CurrentTopicName("Literature", 14) == "Rhetoric"
    ensures CurrentTopicName("Literature", 40) == "Rhetoric"
    ensures CurrentTopicName("Art", 3) == GeneralTopics
    ensures CurrentTopicName("Biology", -1) == AdvancedTopics
  {
  }
}
