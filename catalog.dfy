/** The project catalog of the showcase page: the records it lists, the category
    taxonomy that names the filters, the auxiliary stats and tech-stack lists, and
    the query that selects the projects of one category. */
module Catalog {

  datatype Option<T> = None | Some(value: T)

  /** One catalog record. `status` is None when the record has no status property. */
  datatype Project = Project(
    title: string,
    description: string,
    icon: string,
    category: string,
    tags: seq<string>,
    link: string,
    featured: bool,
    status: Option<string>)

  /** Display metadata of one category key. */
  datatype Category = Category(name: string, icon: string)

  /** One entry of the statistics list (`caption` is the source's `label`, a Dafny keyword). */
  datatype Stat = Stat(icon: string, number: int, caption: string, suffix: string)

  /** One entry of the tech-stack list. */
  datatype Tech = Tech(name: string, icon: string)

  /** The synthetic key that stands for "no filter". */
  const All: string := "all"

  const InitialProjects: seq<Project> := [
    Project(
      "AZ Municipal Finance Dashboard",
      "Interactive R Shiny application for comparing Arizona municipal government finances. Analyze revenue, expenditures, and fiscal health across cities and towns with real-time data visualizations.",
      "fas fa-landmark", "finance",
      ["R Shiny", "Government Data", "Interactive"],
      "az-municipal-finance.html", true, Some("Live")),
    Project(
      "Garden Nerd Chatbot",
      "AI-powered gardening assistant built with Claude. Get personalized plant care advice, watering schedules, and pest management tips specifically tailored for desert climates and beyond.",
      "fas fa-seedling", "ai",
      ["AI Chatbot", "Streamlit", "Claude AI"],
      "garden-nerd.html", true, Some("Live")),
    Project(
      "US Business Trends Dashboard",
      "Interactive visualizations of the Census Bureau's Business Trends and Outlook Survey. Track performance, demand, pricing, and employment sentiment nationwide with comprehensive data insights.",
      "fas fa-building", "economics",
      ["Datawrapper", "Census Data", "Economic Indicators"],
      "btos-dashboard.html", true, Some("Live"))
  ]

  const InitialCategories: map<string, Category> := map[
    "all" := Category("All Projects", "fas fa-th"),
    "finance" := Category("Finance", "fas fa-landmark"),
    "ai" := Category("AI & Chatbots", "fas fa-robot"),
    "economics" := Category("Economics", "fas fa-chart-line"),
    "dataviz" := Category("Data Viz", "fas fa-chart-bar")
  ]

  const InitialTechStack: seq<Tech> := [
    Tech("R / Shiny", "fas fa-code"),
    Tech("Python", "fab fa-python"),
    Tech("Tableau", "fas fa-chart-bar"),
    Tech("SQL", "fas fa-database"),
    Tech("Claude AI", "fas fa-brain"),
    Tech("Streamlit", "fas fa-stream"),
    Tech("JavaScript", "fab fa-js"),
    Tech("React", "fab fa-react"),
    Tech("D3.js", "fas fa-chart-area"),
    Tech("Excel", "fas fa-file-excel"),
    Tech("Git", "fab fa-git-alt"),
    Tech("AWS", "fab fa-aws")
  ]

  const InitialStats: seq<Stat> := [
    Stat("fas fa-project-diagram", 15, "Projects Delivered", "+"),
    Stat("fas fa-users", 50, "Clients Served", "+"),
    Stat("fas fa-chart-line", 10, "Data Sources", "M+"),
    Stat("fas fa-award", 100, "Client Satisfaction", "%")
  ]

  /** `a` is an order-preserving selection of elements of `b` (matched greedily from the end). */
  ghost predicate SubsequenceOf<T>(a: seq<T>, b: seq<T>)
    decreases |b|
  {
    a == [] ||
    (b != [] && SubsequenceOf(if a[|a| - 1] == b[|b| - 1] then a[..|a| - 1] else a, b[..|b| - 1]))
  }

  /** The `Array.filter` by category: the projects whose category is `key`. */
  function Matching(ps: seq<Project>, key: string): (r: seq<Project>)
    ensures |r| <= |ps|
    ensures forall i :: 0 <= i < |r| ==> r[i].category == key
  {
    if ps == [] then []
    else
      var rest := Matching(ps[..|ps| - 1], key);
      if ps[|ps| - 1].category == key then rest + [ps[|ps| - 1]] else rest
  }

  /** The projects shown for filter `key` (getProjectsByCategory, and the ternary in
      renderProjects): the key "all" selects the whole catalog without filtering. */
  function Filtered(ps: seq<Project>, key: string): (r: seq<Project>)
    ensures |r| <= |ps|
    ensures key != All ==> forall i :: 0 <= i < |r| ==> r[i].category == key
  {
    if key == All then ps else Matching(ps, key)
  }

  /** Matching keeps, in catalog order, exactly the records of category `key`: each such
      record as often as the catalog holds it, and no other record. */
  lemma {:induction false} MatchingIsSelection(ps: seq<Project>, key: string)
    ensures SubsequenceOf(Matching(ps, key), ps)
    ensures forall p :: multiset(Matching(ps, key))[p] == if p.category == key then multiset(ps)[p] else 0
  {
    if ps != [] {
      var init, last := ps[..|ps| - 1], ps[|ps| - 1];
      MatchingIsSelection(init, key);
      assert ps == init + [last];
      var rest := Matching(init, key);
      if last.category != key && rest != [] {
        assert rest[|rest| - 1].category == key;
      }
    }
  }

  /** Filtering distributes over concatenation: the relative order of the catalog is kept. */
  lemma {:induction false} MatchingConcat(a: seq<Project>, b: seq<Project>, key: string)
    ensures Matching(a + b, key) == Matching(a, key) + Matching(b, key)
    decreases |b|
  {
    if b == [] {
      assert a + b == a;
    } else {
      var init := b[..|b| - 1];
      assert (a + b)[..|a + b| - 1] == a + init;
      MatchingConcat(a, init, key);
    }
  }

  /** What a filter key shows: for "all" the whole catalog in its order, including records
      whose category has no taxonomy entry; for any other key exactly the records of that
      category, in catalog order. */
  lemma FilteredSelectsCategory(ps: seq<Project>, key: string)
    ensures key == All ==> Filtered(ps, key) == ps
    ensures key != All ==> SubsequenceOf(Filtered(ps, key), ps)
    ensures key != All ==>
      forall p :: multiset(Filtered(ps, key))[p] == if p.category == key then multiset(ps)[p] else 0
  {
    MatchingIsSelection(ps, key);
  }

  /** Appending a record to the catalog appends it to the view of every key it matches. */
  lemma FilteredAppend(ps: seq<Project>, p: Project, key: string)
    ensures Filtered(ps + [p], key) ==
      Filtered(ps, key) + (if key == All || p.category == key then [p] else [])
  {
    if key != All {
      MatchingConcat(ps, [p], key);
      assert [p][..0] == [];
    }
  }

  /** The shipped catalog: "all" lists the three records in order, "finance" exactly the
      first one, and "dataviz", which has a taxonomy entry but no record, nothing. */
  lemma InitialCatalogViews()
    ensures Filtered(InitialProjects, All) == InitialProjects
    ensures Filtered(InitialProjects, "finance") == [InitialProjects[0]]
    ensures Filtered(InitialProjects, "ai") == [InitialProjects[1]]
    ensures Filtered(InitialProjects, "dataviz") == []
  {
    var ps := InitialProjects;
    assert ps[..3] == ps && ps[..2] == [ps[0], ps[1]] && ps[..1] == [ps[0]] && ps[..0] == [];
    assert [ps[0], ps[1]][..1] == [ps[0]] && [ps[0]][..0] == [];
    assert Matching(ps[..1], "finance") == [ps[0]];
    assert Matching(ps[..1], "ai") == [] && Matching(ps[..2], "ai") == [ps[1]];
    assert Matching(ps[..1], "dataviz") == [] && Matching(ps[..2], "dataviz") == [];
  }
}
