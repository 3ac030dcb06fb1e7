/** The module state of the showcase script (the shared arrays, the taxonomy and the
    current filter) and the page regions it renders into. */
module Page {
  import opened Catalog
  import opened Filters
  import opened Cards

  /** A JavaScript array: an object that every holder of a reference sees change. */
  class JsArray<T> {
    var elems: seq<T>

    constructor (init: seq<T>)
      ensures elems == init
    {
      elems := init;
    }

    /** `push(x)` */
    method Push(x: T)
      modifies this
      ensures elems == old(elems) + [x]
    {
      elems := elems + [x];
    }

    /** `length = 0` */
    method Truncate()
      modifies this
      ensures elems == []
    {
      elems := [];
    }

    /** `push(...xs)` */
    method PushAll(xs: seq<T>)
      modifies this
      ensures elems == old(elems) + xs
    {
      elems := elems + xs;
    }
  }

  /** The script's state and the three page regions the catalog renderer owns. A region
      the document lacks is None: the filter container holds the filter buttons, the grid
      holds the cards, and the empty-state element records whether it is shown. */
  class Showcase {
    const projects: JsArray<Project>
    const categories: map<string, Category>
    const techStack: JsArray<Tech>
    const stats: JsArray<Stat>
    var currentFilter: string
    var filterBar: Option<seq<FilterButton>>
    var grid: Option<seq<Card>>
    var noProjects: Option<bool>

    /** No two filter buttons share a key. */
    ghost predicate Valid()
      reads this
    {
      filterBar.Some? ==> DistinctKeys(filterBar.value)
    }

    /** The script as loaded: the shipped data, the filter "all", and empty regions where
        the document has them. */
    constructor (hasFilterBar: bool, hasGrid: bool, hasNoProjects: bool)
      ensures Valid()
      ensures fresh(projects) && fresh(techStack) && fresh(stats)
      ensures projects.elems == InitialProjects && categories == InitialCategories
      ensures techStack.elems == InitialTechStack && stats.elems == InitialStats
      ensures currentFilter == All
      ensures filterBar == (if hasFilterBar then Some([]) else None)
      ensures grid == (if hasGrid then Some([]) else None)
      ensures noProjects == (if hasNoProjects then Some(false) else None)
    {
      projects := new JsArray(InitialProjects);
      categories := InitialCategories;
      techStack := new JsArray(InitialTechStack);
      stats := new JsArray(InitialStats);
      currentFilter := All;
      filterBar := if hasFilterBar then Some([]) else None;
      grid := if hasGrid then Some([]) else None;
      noProjects := if hasNoProjects then Some(false) else None;
    }

    /** renderProjectFilters: rebuilds the filter bar from the catalog, with only the
        "all" button active whatever the current filter is. */
    method RenderProjectFilters()
      requires Valid()
      modifies this
      ensures Valid()
      ensures filterBar == if old(filterBar).None? then None else Some(RenderedButtons(projects.elems, categories))
      ensures grid == old(grid) && noProjects == old(noProjects) && currentFilter == old(currentFilter)
    {
      if filterBar.None? {
        return;
      }
      var ps := projects.elems;
      var used := [All];
      var i := 0;
      while i < |ps|
        invariant 0 <= i <= |ps|
        invariant used == UsedCategories(ps[..i])
        invariant grid == old(grid) && noProjects == old(noProjects) && currentFilter == old(currentFilter)
      {
        assert ps[..i + 1][..i] == ps[..i];
        var key := ps[i].category;
        if key !in used {
          used := used + [key];
        }
        i := i + 1;
      }
      assert ps[..i] == ps;
      filterBar := Some([]);
      assert ButtonsFor(KnownKeys(used[..0], categories), categories) == [];
      var j := 0;
      while j < |used|
        invariant 0 <= j <= |used|
        invariant filterBar == Some(ButtonsFor(KnownKeys(used[..j], categories), categories))
        invariant grid == old(grid) && noProjects == old(noProjects) && currentFilter == old(currentFilter)
      {
        assert used[..j + 1][..j] == used[..j];
        var key := used[j];
        if key in categories {
          var button := FilterButton(key, categories[key], key == All);
          ghost var known := KnownKeys(used[..j], categories);
          assert ButtonsFor(known + [key], categories) == ButtonsFor(known, categories) + [button];
          filterBar := Some(filterBar.value + [button]);
        }
        j := j + 1;
      }
      assert used[..j] == used;
      RenderedButtonsOnlyAllActive(ps, categories);
    }

    /** showNoProjectsMessage */
    method ShowNoProjectsMessage()
      modifies this
      ensures noProjects == if old(noProjects).None? then None else Some(true)
      ensures filterBar == old(filterBar) && grid == old(grid) && currentFilter == old(currentFilter)
    {
      if noProjects.Some? {
        noProjects := Some(true);
      }
    }

    /** hideNoProjectsMessage */
    method HideNoProjectsMessage()
      modifies this
      ensures noProjects == if old(noProjects).None? then None else Some(false)
      ensures filterBar == old(filterBar) && grid == old(grid) && currentFilter == old(currentFilter)
    {
      if noProjects.Some? {
        noProjects := Some(false);
      }
    }

    /** renderProjects: without a grid nothing changes; otherwise the grid holds one card
        per project the filter selects, in catalog order, the i-th waiting i tenths of a
        second, and the empty-state is shown exactly when there is no card. */
    method RenderProjects(filter: string)
      requires Valid()
      modifies this
      ensures Valid()
      ensures old(grid).None? ==> grid == old(grid) && noProjects == old(noProjects)
      ensures old(grid).Some? ==> grid == Some(GridCards(Filtered(projects.elems, filter)))
      ensures old(grid).Some? ==>
        noProjects == if old(noProjects).None? then None else Some(Filtered(projects.elems, filter) == [])
      ensures filterBar == old(filterBar) && currentFilter == old(currentFilter)
    {
      if grid.None? {
        return;
      }
      grid := Some([]);
      var filtered := if filter == All then projects.elems else Matching(projects.elems, filter);
      if |filtered| == 0 {
        assert GridCards(filtered) == [];
        ShowNoProjectsMessage();
        return;
      }
      HideNoProjectsMessage();
      var index := 0;
      assert GridCards(filtered[..0]) == [];
      while index < |filtered|
        invariant 0 <= index <= |filtered|
        invariant grid == Some(GridCards(filtered[..index]))
        invariant noProjects == (if old(noProjects).None? then None else Some(false))
        invariant filterBar == old(filterBar) && currentFilter == old(currentFilter)
      {
        var card := CreateProjectCard(filtered[index]);
        card := card.(delay := Some(index));
        assert GridCards(filtered[..index + 1]) == GridCards(filtered[..index]) + [card];
        grid := Some(grid.value + [card]);
        index := index + 1;
      }
      assert filtered[..index] == filtered;
    }

    /** initializeProjects: the filter bar, then the grid at the default filter "all". */
    method InitializeProjects()
      requires Valid()
      modifies this
      ensures Valid()
      ensures filterBar == if old(filterBar).None? then None else Some(RenderedButtons(projects.elems, categories))
      ensures old(grid).None? ==> grid == old(grid) && noProjects == old(noProjects)
      ensures old(grid).Some? ==> grid == Some(GridCards(projects.elems))
      ensures old(grid).Some? ==>
        noProjects == if old(noProjects).None? then None else Some(projects.elems == [])
      ensures currentFilter == old(currentFilter)
    {
      RenderProjectFilters();
      RenderProjects(All);
    }

    /** filterProjects: records the filter, makes a button active exactly when its key is
        the filter (so one button when some button has that key, none otherwise), and
        renders the grid for it. */
    method FilterProjects(category: string)
      requires Valid()
      modifies this
      ensures Valid()
      ensures currentFilter == category
      ensures filterBar == if old(filterBar).None? then None else Some(Activate(old(filterBar).value, category))
      ensures filterBar.Some? ==>
        ActiveCount(filterBar.value) == if HasKey(filterBar.value, category) then 1 else 0
      ensures old(grid).None? ==> grid == old(grid) && noProjects == old(noProjects)
      ensures old(grid).Some? ==> grid == Some(GridCards(Filtered(projects.elems, category)))
      ensures old(grid).Some? ==>
        noProjects == if old(noProjects).None? then None else Some(Filtered(projects.elems, category) == [])
    {
      currentFilter := category;
      if filterBar.Some? {
        var buttons := filterBar.value;
        var i := 0;
        while i < |buttons|
          invariant 0 <= i <= |buttons|
          invariant filterBar.Some? && |filterBar.value| == |buttons|
          invariant forall j :: 0 <= j < i ==> filterBar.value[j] == buttons[j].(active := buttons[j].key == category)
          invariant forall j :: i <= j < |buttons| ==> filterBar.value[j] == buttons[j]
          invariant currentFilter == category && grid == old(grid) && noProjects == old(noProjects)
        {
          var toggled := buttons[i].(active := buttons[i].key == category);
          filterBar := Some(filterBar.value[i := toggled]);
          i := i + 1;
        }
        assert filterBar.value == Activate(buttons, category);
        ActivateExactlyOne(buttons, category);
      }
      RenderProjects(category);
    }

    /** addProject: appends the record to the shared catalog, rebuilds the filter bar (so
        "all" is the active button again) and re-renders the grid at the current filter,
        which it does not change. */
    method AddProject(project: Project)
      requires Valid()
      modifies this, projects
      ensures Valid()
      ensures projects.elems == old(projects.elems) + [project]
      ensures techStack.elems == old(techStack.elems) && stats.elems == old(stats.elems)
      ensures currentFilter == old(currentFilter)
      ensures filterBar == if old(filterBar).None? then None else Some(RenderedButtons(projects.elems, categories))
      ensures filterBar.Some? ==> forall b :: b in filterBar.value ==> (b.active <==> b.key == All)
      ensures old(grid).None? ==> grid == old(grid) && noProjects == old(noProjects)
      ensures old(grid).Some? ==> grid == Some(GridCards(Filtered(projects.elems, currentFilter)))
      ensures old(grid).Some? ==>
        noProjects == if old(noProjects).None? then None else Some(Filtered(projects.elems, currentFilter) == [])
    {
      projects.Push(project);
      RenderProjectFilters();
      RenderProjects(currentFilter);
      RenderedButtonsOnlyAllActive(projects.elems, categories);
    }

    /** getProjectsByCategory: for "all" the catalog array itself, so that later additions
        show through it; for any other key a new array of the matching records. */
    method GetProjectsByCategory(category: string) returns (r: JsArray<Project>)
      ensures category == All ==> r == projects
      ensures category != All ==> fresh(r)
      ensures r.elems == Filtered(projects.elems, category)
    {
      if category == All {
        r := projects;
      } else {
        r := new JsArray(Matching(projects.elems, category));
      }
    }

    /** updateStats: empties the stats array in place, then pushes the new entries into the
        same array. Passing the stats array itself therefore leaves it empty. */
    method UpdateStats(newStats: JsArray<Stat>)
      modifies stats
      ensures stats.elems == if newStats == stats then [] else old(newStats.elems)
      ensures projects.elems == old(projects.elems) && techStack.elems == old(techStack.elems)
    {
      stats.Truncate();
      stats.PushAll(newStats.elems);
    }

    /** addTech: appends one entry to the shared tech-stack array. */
    method AddTech(tech: Tech)
      modifies techStack
      ensures techStack.elems == old(techStack.elems) + [tech]
      ensures projects.elems == old(projects.elems) && stats.elems == old(stats.elems)
    {
      techStack.Push(tech);
    }
  }
}
