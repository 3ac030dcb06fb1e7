/** The filter bar derived from the catalog: the insertion-ordered set of category keys
    seeded with "all", the skip of keys without taxonomy entry, the buttons built from
    what remains, and the buttons' active flags. */
module Filters {
  import opened Catalog

  /** No key occurs twice. */
  predicate Distinct(keys: seq<string>)
  {
    forall i, j :: 0 <= i < j < |keys| ==> keys[i] != keys[j]
  }

  /** `Set.prototype.add` on an insertion-ordered set: a key already present keeps its
      place, a new key goes last. */
  function Inserted(keys: seq<string>, k: string): (r: seq<string>)
    ensures Distinct(keys) ==> Distinct(r)
    ensures forall x :: x in r <==> x in keys || x == k
    ensures keys <= r
  {
    if k in keys then keys else keys + [k]
  }

  /** The set `new Set(['all'])` after adding the category of each project in turn. */
  function UsedCategories(ps: seq<Project>): (keys: seq<string>)
    ensures |keys| > 0 && keys[0] == All
    ensures Distinct(keys)
  {
    if ps == [] then [All] else Inserted(UsedCategories(ps[..|ps| - 1]), ps[|ps| - 1].category)
  }

  /** The used keys are "all" and the categories of the catalog's records, nothing else. */
  lemma {:induction false} UsedCategoriesMembers(ps: seq<Project>)
    ensures forall k :: k in UsedCategories(ps) <==>
      k == All || exists i :: 0 <= i < |ps| && ps[i].category == k
  {
    if ps != [] {
      var init := ps[..|ps| - 1];
      UsedCategoriesMembers(init);
      forall k | k in UsedCategories(ps)
        ensures k == All || exists i :: 0 <= i < |ps| && ps[i].category == k
      {
        if k != All && k in UsedCategories(init) {
          var i :| 0 <= i < |init| && init[i].category == k;
          assert ps[i] == init[i];
        }
      }
      forall k | exists i :: 0 <= i < |ps| && ps[i].category == k
        ensures k in UsedCategories(ps)
      {
        var i :| 0 <= i < |ps| && ps[i].category == k;
        if i < |init| {
          assert init[i] == ps[i];
        }
      }
    }
  }

  /** The set only grows at its end: the keys used by a prefix of the catalog are a prefix
      of the keys used by the whole catalog. */
  lemma {:induction false} UsedCategoriesGrow(ps: seq<Project>, m: nat)
    requires m <= |ps|
    ensures UsedCategories(ps[..m]) <= UsedCategories(ps)
    decreases |ps|
  {
    if m == |ps| {
      assert ps[..m] == ps;
    } else {
      var init := ps[..|ps| - 1];
      UsedCategoriesGrow(init, m);
      assert init[..m] == ps[..m];
    }
  }

  /** First-seen order: when key j follows key i (neither being "all"), every record of
      category j is preceded in the catalog by a record of category i. */
  lemma FirstSeenOrder(ps: seq<Project>, i: nat, j: nat, m: nat)
    requires 0 < i < j < |UsedCategories(ps)|
    requires m < |ps| && ps[m].category == UsedCategories(ps)[j]
    ensures exists l :: 0 <= l < m && ps[l].category == UsedCategories(ps)[i]
  {
    var u, prefix := UsedCategories(ps), ps[..m + 1];
    var v := UsedCategories(prefix);
    UsedCategoriesGrow(ps, m + 1);
    UsedCategoriesMembers(prefix);
    assert prefix[m].category == u[j];
    var t :| 0 <= t < |v| && v[t] == u[j];
    assert v[t] == u[t];
    assert i < |v| && v[i] == u[i] && u[i] != All;
    assert u[i] in v;
    var l :| 0 <= l < |prefix| && prefix[l].category == u[i];
    assert l != m;
    assert ps[l] == prefix[l];
  }

  /** The keys that have a taxonomy entry, in order: the `if (!category) return;` skip. */
  function KnownKeys(keys: seq<string>, taxonomy: map<string, Category>): (r: seq<string>)
    ensures forall k :: k in r ==> k in taxonomy
  {
    if keys == [] then []
    else
      var rest := KnownKeys(keys[..|keys| - 1], taxonomy);
      if keys[|keys| - 1] in taxonomy then rest + [keys[|keys| - 1]] else rest
  }

  /** The skip keeps exactly the keys with an entry. */
  lemma {:induction false} KnownKeysMembers(keys: seq<string>, taxonomy: map<string, Category>)
    ensures forall k :: k in KnownKeys(keys, taxonomy) <==> k in keys && k in taxonomy
  {
    if keys != [] {
      var init, last := keys[..|keys| - 1], keys[|keys| - 1];
      KnownKeysMembers(init, taxonomy);
      assert keys == init + [last];
    }
  }

  /** The skip keeps the order of the keys and adds no duplicate. */
  lemma {:induction false} KnownKeysOrder(keys: seq<string>, taxonomy: map<string, Category>)
    ensures SubsequenceOf(KnownKeys(keys, taxonomy), keys)
    ensures Distinct(keys) ==> Distinct(KnownKeys(keys, taxonomy))
  {
    if keys != [] {
      var init, last := keys[..|keys| - 1], keys[|keys| - 1];
      KnownKeysOrder(init, taxonomy);
      var rest := KnownKeys(init, taxonomy);
      if last !in taxonomy && rest != [] {
        assert rest[|rest| - 1] in taxonomy;
      }
      if Distinct(keys) && last in taxonomy {
        KnownKeysMembers(init, taxonomy);
        assert last !in init;
      }
    }
  }

  /** A first key with an entry stays first. */
  lemma {:induction false} KnownKeysHead(keys: seq<string>, taxonomy: map<string, Category>)
    requires |keys| > 0 && keys[0] in taxonomy
    ensures |KnownKeys(keys, taxonomy)| > 0 && KnownKeys(keys, taxonomy)[0] == keys[0]
  {
    if |keys| > 1 {
      var init := keys[..|keys| - 1];
      assert init[0] == keys[0];
      KnownKeysHead(init, taxonomy);
    }
  }

  /** The keys of the filter bar for a catalog and a taxonomy. */
  function FilterKeys(ps: seq<Project>, taxonomy: map<string, Category>): (keys: seq<string>)
  {
    KnownKeys(UsedCategories(ps), taxonomy)
  }

  /** The filter keys are "all" first (when the taxonomy names it), then the categories of
      the catalog in first-seen order, each once, with every key that has no taxonomy entry
      dropped. */
  lemma FilterKeysSpec(ps: seq<Project>, taxonomy: map<string, Category>)
    ensures Distinct(FilterKeys(ps, taxonomy))
    ensures All in taxonomy ==> |FilterKeys(ps, taxonomy)| > 0 && FilterKeys(ps, taxonomy)[0] == All
    ensures forall k :: k in FilterKeys(ps, taxonomy) <==>
      k in taxonomy && (k == All || exists i :: 0 <= i < |ps| && ps[i].category == k)
    ensures SubsequenceOf(FilterKeys(ps, taxonomy), UsedCategories(ps))
  {
    var used := UsedCategories(ps);
    KnownKeysMembers(used, taxonomy);
    KnownKeysOrder(used, taxonomy);
    if All in taxonomy {
      KnownKeysHead(used, taxonomy);
    }
    UsedCategoriesMembers(ps);
  }

  /** Adding a record adds its category to the filter keys, at the end, only when the key
      is new and has a taxonomy entry; otherwise the keys stay as they were. */
  lemma FilterKeysAppend(ps: seq<Project>, p: Project, taxonomy: map<string, Category>)
    ensures FilterKeys(ps + [p], taxonomy) == FilterKeys(ps, taxonomy) +
      (if p.category in taxonomy && p.category !in UsedCategories(ps) then [p.category] else [])
  {
    assert (ps + [p])[..|ps|] == ps;
    var u := UsedCategories(ps);
    if p.category !in u {
      assert (u + [p.category])[..|u|] == u;
    }
  }

  /** A filter button: its key (`data-category`), the metadata it displays, and whether
      it carries the `active` class. */
  datatype FilterButton = FilterButton(key: string, category: Category, active: bool)

  /** The buttons renderProjectFilters appends, one per key, where only "all" is active. */
  function ButtonsFor(keys: seq<string>, taxonomy: map<string, Category>): (bs: seq<FilterButton>)
    requires forall k :: k in keys ==> k in taxonomy
  {
    seq(|keys|, i requires 0 <= i < |keys| => FilterButton(keys[i], taxonomy[keys[i]], keys[i] == All))
  }

  /** The whole filter bar renderProjectFilters builds for a catalog and a taxonomy. */
  function RenderedButtons(ps: seq<Project>, taxonomy: map<string, Category>): (bs: seq<FilterButton>)
  {
    ButtonsFor(FilterKeys(ps, taxonomy), taxonomy)
  }

  predicate DistinctKeys(bs: seq<FilterButton>)
  {
    forall i, j :: 0 <= i < j < |bs| ==> bs[i].key != bs[j].key
  }

  predicate HasKey(bs: seq<FilterButton>, key: string)
  {
    exists i :: 0 <= i < |bs| && bs[i].key == key
  }

  /** The class toggle of filterProjects: a button is active iff its key is `key`. */
  function Activate(bs: seq<FilterButton>, key: string): (r: seq<FilterButton>)
  {
    seq(|bs|, i requires 0 <= i < |bs| => bs[i].(active := bs[i].key == key))
  }

  /** The number of buttons carrying `active`. */
  function ActiveCount(bs: seq<FilterButton>): (n: nat)
  {
    if bs == [] then 0
    else ActiveCount(bs[..|bs| - 1]) + (if bs[|bs| - 1].active then 1 else 0)
  }

  /** With distinct keys, activating a key leaves exactly one button active when some
      button has that key, and none otherwise. */
  lemma {:induction false} ActivateExactlyOne(bs: seq<FilterButton>, key: string)
    requires DistinctKeys(bs)
    ensures ActiveCount(Activate(bs, key)) == if HasKey(bs, key) then 1 else 0
  {
    if bs != [] {
      var init, last := bs[..|bs| - 1], bs[|bs| - 1];
      ActivateExactlyOne(init, key);
      assert Activate(bs, key)[..|bs| - 1] == Activate(init, key);
      if last.key == key {
        forall i | 0 <= i < |init|
          ensures init[i].key != key
        {
          assert init[i] == bs[i];
        }
      } else {
        if HasKey(bs, key) {
          var i :| 0 <= i < |bs| && bs[i].key == key;
          assert init[i].key == key;
        }
        if HasKey(init, key) {
          var i :| 0 <= i < |init| && init[i].key == key;
          assert bs[i].key == key;
        }
      }
    }
  }

  /** After renderProjectFilters the buttons have distinct keys and only "all" is active,
      whatever filter is current: exactly one button when the taxonomy names "all". */
  lemma RenderedButtonsOnlyAllActive(ps: seq<Project>, taxonomy: map<string, Category>)
    ensures DistinctKeys(RenderedButtons(ps, taxonomy))
    ensures forall b :: b in RenderedButtons(ps, taxonomy) ==> (b.active <==> b.key == All)
    ensures ActiveCount(RenderedButtons(ps, taxonomy)) == if All in taxonomy then 1 else 0
    ensures All in taxonomy ==> RenderedButtons(ps, taxonomy)[0] == FilterButton(All, taxonomy[All], true)
  {
    var keys, bs := FilterKeys(ps, taxonomy), RenderedButtons(ps, taxonomy);
    FilterKeysSpec(ps, taxonomy);
    assert Activate(bs, All) == bs;
    ActivateExactlyOne(bs, All);
    if All in taxonomy {
      assert bs[0].key == All;
    }
  }

  /** When every key has an entry, the skip keeps all of them. */
  lemma {:induction false} KnownKeysAllKnown(keys: seq<string>, taxonomy: map<string, Category>)
    requires forall k :: k in keys ==> k in taxonomy
    ensures KnownKeys(keys, taxonomy) == keys
  {
    if keys != [] {
      var init := keys[..|keys| - 1];
      assert forall k :: k in init ==> k in keys;
      KnownKeysAllKnown(init, taxonomy);
      assert init + [keys[|keys| - 1]] == keys;
    }
  }

  /** The shipped catalog yields the buttons "all", "finance", "ai", "economics": the
      taxonomy's "dataviz" has no record and so no button. */
  lemma InitialFilterKeys()
    ensures UsedCategories(InitialProjects) == [All, "finance", "ai", "economics"]
    ensures FilterKeys(InitialProjects, InitialCategories) == [All, "finance", "ai", "economics"]
  {
    var ps := InitialProjects;
    assert ps[..3] == ps && ps[..2] == [ps[0], ps[1]] && ps[..1] == [ps[0]];
    assert [ps[0], ps[1]][..1] == [ps[0]] && [ps[0]][..0] == [];
    assert UsedCategories([ps[0]]) == [All, "finance"];
    assert UsedCategories([ps[0], ps[1]]) == [All, "finance", "ai"];
    KnownKeysAllKnown([All, "finance", "ai", "economics"], InitialCategories);
  }

  /** Adding a record whose category has no taxonomy entry ("robotics") to the shipped
      catalog leaves the filter bar as it was, yet the key still selects that record. */
  lemma UnknownCategoryScenario(robot: Project)
    requires robot.category == "robotics"
    ensures FilterKeys(InitialProjects + [robot], InitialCategories) == FilterKeys(InitialProjects, InitialCategories)
    ensures RenderedButtons(InitialProjects + [robot], InitialCategories) ==
      RenderedButtons(InitialProjects, InitialCategories)
    ensures Filtered(InitialProjects + [robot], "robotics") == [robot]
    ensures Filtered(InitialProjects + [robot], "ai") == [InitialProjects[1]]
  {
    FilterKeysAppend(InitialProjects, robot, InitialCategories);
    FilteredAppend(InitialProjects, robot, "robotics");
    FilteredAppend(InitialProjects, robot, "ai");
    InitialCatalogViews();
    var ps := InitialProjects;
    assert ps[..3] == ps && ps[..2] == [ps[0], ps[1]] && ps[..1] == [ps[0]] && ps[..0] == [];
    assert [ps[0], ps[1]][..1] == [ps[0]] && [ps[0]][..0] == [];
    assert Matching(ps[..1], "robotics") == [] && Matching(ps[..2], "robotics") == [];
  }
}
