/**
 * The plugin's persisted class filters (`MyPluginSettings`) and the settings page that edits
 * them (`MyPluginConfigurable`), in both package trees.
 */
module PluginSettings {
  import opened JavaText

  /** An IntelliJ class filter: a class-name pattern and its two switches, compared by value. */
  datatype ClassFilter = ClassFilter(pattern: String, enabled: bool, including: bool)

  /** `new ClassFilter(pattern)`: enabled and including. */
  function NewFilter(pattern: String): ClassFilter { ClassFilter(pattern, true, true) }

  /** The three filters `getInstance` installs when none are stored, in this order. */
  const DefaultFilters: seq<ClassFilter> := [
    NewFilter("org.apache.ibatis.session.SqlSession"),
    NewFilter("org.mybatis.spring.SqlSessionTemplate"),
    NewFilter("com.kmerit.core.dao.BaseDAOMybatis")
  ]

  // ---------------------------------------------------------------- filterEquals

  /** `Collections.addAll` into an empty `HashSet`. */
  function SetOf(filters: seq<ClassFilter>): set<ClassFilter>
  {
    if filters == [] then {} else SetOf(filters[..|filters| - 1]) + {filters[|filters| - 1]}
  }

  /** `filterEquals`: equal lengths and equal sets of filters. */
  function FilterEquals(filters1: seq<ClassFilter>, filters2: seq<ClassFilter>): (r: bool)
    ensures |filters1| != |filters2| ==> !r
    ensures |filters1| == |filters2| ==> (r <==> forall f :: f in filters1 <==> f in filters2)
  {
    SetOfElements(filters1);
    SetOfElements(filters2);
    |filters1| == |filters2| && SetOf(filters2) == SetOf(filters1)
  }

  /** The set built by `Collections.addAll` holds exactly the array's elements. */
  lemma {:induction false} SetOfElements(filters: seq<ClassFilter>)
    ensures forall f :: f in SetOf(filters) <==> f in filters
  {
    if filters != [] {
      var init := filters[..|filters| - 1];
      SetOfElements(init);
      assert filters == init + [filters[|filters| - 1]];
    }
  }

  lemma FilterEqualsReflexiveSymmetric(a: seq<ClassFilter>, b: seq<ClassFilter>)
    ensures FilterEquals(a, a)
    ensures FilterEquals(a, b) == FilterEquals(b, a)
  {
  }

  /** Reordering either array does not change the answer. */
  lemma FilterEqualsPermutation(a: seq<ClassFilter>, a': seq<ClassFilter>, b: seq<ClassFilter>)
    requires multiset(a) == multiset(a')
    ensures FilterEquals(a, b) == FilterEquals(a', b)
  {
    assert |a| == |multiset(a)| == |multiset(a')| == |a'|;
    forall f ensures f in a <==> f in a' {
      assert f in a <==> f in multiset(a);
      assert f in a' <==> f in multiset(a');
    }
  }

  /** Multiplicities are not compared: [a, a, b] and [a, b, b] are equal filter lists. */
  lemma FilterEqualsIgnoresMultiplicity(x: ClassFilter, y: ClassFilter)
    requires x != y
    ensures FilterEquals([x, x, y], [x, y, y])
    ensures multiset([x, x, y]) != multiset([x, y, y])
  {
    assert multiset([x, x, y])[x] == 2;
    assert multiset([x, y, y])[x] == 1;
  }

  // ---------------------------------------------------------------- MyPluginSettings

  /** The filters after `getInstance` has looked at the stored ones: never empty. */
  function Initialised(filters: seq<ClassFilter>): (r: seq<ClassFilter>)
    ensures r != []
    ensures filters != [] ==> r == filters
    ensures filters == [] ==> r == DefaultFilters
  {
    if filters == [] then DefaultFilters else filters
  }

  /** Looking twice installs nothing more. */
  lemma InitialisedIdempotent(filters: seq<ClassFilter>)
    ensures Initialised(Initialised(filters)) == Initialised(filters)
  {
  }

  /** The application service holding the class filters. */
  class Settings {
    var classFilters: seq<ClassFilter>

    /** A fresh service starts from `ClassFilter.EMPTY_ARRAY`. */
    constructor()
      ensures classFilters == []
    {
      classFilters := [];
    }

    function GetClassFilters(): seq<ClassFilter>
      reads this
    {
      classFilters
    }

    method SetClassFilters(filters: seq<ClassFilter>)
      modifies this
      ensures classFilters == filters
      ensures GetClassFilters() == filters
    {
      classFilters := filters;
    }

    /** `loadState`: the stored bean's filters are copied in. */
    method LoadState(state: Settings)
      modifies this
      ensures classFilters == old(state.classFilters)
    {
      classFilters := state.classFilters;
    }
  }

  /**
   * `getInstance` of the newer tree: a missing service is replaced by a fresh one carrying the
   * defaults, and a service with no filters gets the defaults installed.
   */
  method GetInstance(service: Settings?) returns (s: Settings)
    modifies service
    ensures service == null ==> fresh(s) && s.classFilters == DefaultFilters
    ensures service != null ==> s == service && s.classFilters == Initialised(old(service.classFilters))
  {
    if service == null {
      s := new Settings();
      s.SetClassFilters(DefaultFilters);
    } else if service.classFilters == [] {
      s := service;
      s.SetClassFilters(DefaultFilters);
    } else {
      s := service;
    }
  }

  /** `getInstance` of the older tree, which dereferences the service without a null check. */
  method GetInstanceLegacy(service: Settings) returns (s: Settings)
    modifies service
    ensures s == service && s.classFilters == Initialised(old(service.classFilters))
  {
    s := service;
    if s.classFilters == [] {
      s.SetClassFilters(DefaultFilters);
    }
  }

  // ---------------------------------------------------------------- MyPluginConfigurable

  /** `isModified`: the editor's filters differ from the stored ones (after `getInstance`). */
  method IsModified(service: Settings, editorFilters: seq<ClassFilter>) returns (modified: bool)
    modifies service
    ensures service.classFilters == Initialised(old(service.classFilters))
    ensures modified <==> !FilterEquals(Initialised(old(service.classFilters)), editorFilters)
  {
    var s := GetInstanceLegacy(service);
    modified := !FilterEquals(s.GetClassFilters(), editorFilters);
  }

  /** `apply`: the editor's filters become the stored ones. */
  method Apply(service: Settings, editorFilters: seq<ClassFilter>)
    modifies service
    ensures service.classFilters == editorFilters
    ensures FilterEquals(service.classFilters, editorFilters)
  {
    var s := GetInstanceLegacy(service);
    s.SetClassFilters(editorFilters);
  }

  /** `reset`: the editor is loaded with the stored filters. */
  method Reset(service: Settings) returns (editorFilters: seq<ClassFilter>)
    modifies service
    ensures editorFilters == service.classFilters == Initialised(old(service.classFilters))
  {
    var s := GetInstanceLegacy(service);
    editorFilters := s.GetClassFilters();
  }

  /**
   * After `apply`, the page reads as unmodified exactly when the applied list was not empty:
   * an empty list is stored, but the next `getInstance` replaces it by the defaults.
   */
  lemma ModifiedAfterApply(editorFilters: seq<ClassFilter>)
    ensures FilterEquals(Initialised(editorFilters), editorFilters) <==> editorFilters != []
  {
    if editorFilters == [] {
      assert |Initialised(editorFilters)| == 3;
    }
  }
}
