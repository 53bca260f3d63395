/**
 * The built-in sample data: the demo student, the administrator and the
 * four sample notes the store is seeded with and falls back to.
 */
module MockData {
  import opened Types
  import Lists

  /** The demo member account. */
  const MockUser: User := User("u1", "Alex Student", "alex@example.com", Student, "https://picsum.photos/id/64/100/100")

  /** The administrator account. */
  const MockAdmin: User := User("admin1", "System Admin", "admin@neonotes.com", Admin, "https://ui-avatars.com/api/?name=Admin&background=4F46E5&color=fff")

  const SarahDev: User := User("a1", "Sarah Dev", "sarah@dev.com", Author, "https://picsum.photos/id/237/100/100")
  const ProfMath: User := User("a2", "Prof. Math", "prof@math.com", Author, "https://picsum.photos/id/20/100/100")
  const TechGuru: User := User("a3", "Tech Guru", "tech@guru.com", Author, "https://picsum.photos/id/60/100/100")

  const ReactHooksContent: string :=
    "React Hooks are functions that let you \"hook into\" React state and lifecycle features from function components. \n    \n    1. useState: Returns a stateful value, and a function to update it.\n    2. useEffect: Accepts a function that contains imperative, possibly effectful code.\n    3. useContext: Accepts a context object and returns the current context value.\n    \n    Rules of Hooks:\n    - Only Call Hooks at the Top Level\n    - Only Call Hooks from React Functions"

  const CalculusContent: string :=
    "A limit is the value that a function (or sequence) approaches as the input (or index) approaches some value.\n    \n    Derivatives represent the rate of change of a function with respect to a variable. Geometrically, the derivative is the slope of the tangent line to the graph of the function at a given point.\n    \n    Common Rules:\n    - Power Rule\n    - Product Rule\n    - Quotient Rule\n    - Chain Rule"

  const ChemistryContent: string :=
    "Hydrocarbons are organic compounds consisting entirely of hydrogen and carbon.\n    \n    Alkanes: Saturated hydrocarbons (single bonds). Formula CnH2n+2.\n    Alkenes: Unsaturated hydrocarbons (double bonds). Formula CnH2n.\n    Alkynes: Unsaturated hydrocarbons (triple bonds). Formula CnH2n-2.\n    \n    Reactions:\n    - Combustion\n    - Halogenation\n    - Hydrogenation"

  const MachineLearningContent: string :=
    "Machine learning is a field of inquiry devoted to understanding and building methods that 'learn', that is, methods that leverage data to improve performance on some set of tasks.\n    \n    Supervised Learning:\n    The algorithm learns on a labeled dataset, providing an answer key that the algorithm can use to evaluate its accuracy on training data.\n    \n    Unsupervised Learning:\n    Provides unlabeled data that the algorithm tries to make sense of by extracting features and patterns on its own."

  const Note1: Note :=
    Note("n1", "Introduction to React Hooks",
      "A comprehensive guide to useState, useEffect, and custom hooks.",
      ReactHooksContent,
      "Web Development", "2024", "Frontend", ["React", "JavaScript", "Frontend"],
      "https://picsum.photos/seed/react/400/250", SarahDev,
      1205, 342, false, None, "2024-03-10", [],
      None, Some("react_hooks_intro.pdf"), Some("application/pdf"))

  const Note2: Note :=
    Note("n2", "Advanced Calculus: Limits & Derivatives",
      "Detailed notes on limits, continuity, and differentiation rules.",
      CalculusContent,
      "Mathematics", "2023", "Calculus", ["Math", "Calculus", "Limits"],
      "https://picsum.photos/seed/math/400/250", ProfMath,
      850, 120, true, Some(Price("4.99")), "2024-02-15", [],
      None, None, None)

  const Note3: Note :=
    Note("n3", "Organic Chemistry: Hydrocarbons",
      "Study notes covering Alkanes, Alkenes, and Alkynes.",
      ChemistryContent,
      "Chemistry", "2024", "Science", ["Chemistry", "Organic", "Science"],
      "https://picsum.photos/seed/chem/400/250", SarahDev,
      543, 89, false, None, "2024-03-01", [],
      None, None, None)

  const Note4: Note :=
    Note("n4", "Machine Learning Basics",
      "Introduction to Supervised and Unsupervised Learning.",
      MachineLearningContent,
      "Computer Science", "2024", "AI", ["AI", "ML", "Python"],
      "https://picsum.photos/seed/ai/400/250", TechGuru,
      2100, 560, true, Some(Price("9.99")), "2024-01-20", [],
      None, None, None)

  function NoteIds(notes: seq<Note>): seq<string> {
    Lists.Map(notes, (n: Note) => n.id)
  }

  /**
   * The four sample notes. Their ids are n1 to n4, pairwise distinct; a
   * price is present exactly on the premium ones; every counter is
   * non-negative and no note has comments yet.
   */
  function MockNotes(): (r: seq<Note>)
    ensures |r| == 4
    ensures NoteIds(r) == ["n1", "n2", "n3", "n4"] && Lists.NoDup(NoteIds(r))
    ensures forall n | n in r :: PriceIffPremium(n) && CountersNonNegative(n) && n.comments == []
  {
    [Note1, Note2, Note3, Note4]
  }

  /**
   * The two demo accounts have different e-mail addresses and the roles
   * administrator and member, so the two credential checks of the login
   * can never both succeed.
   */
  lemma DemoAccountsDistinct()
    ensures MockAdmin.email != MockUser.email
    ensures MockAdmin.role == Admin && MockUser.role == Student
  {
  }
}
