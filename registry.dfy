/**
 * The plugin registry and the four functions that populate it at start-up.
 *
 * The registry holds four independent stores: template extensions and custom validators, each a
 * defaultdict(list) keyed by model name; GraphQL types, one flat list; and menu items, a dict from
 * section name to the list registered last for it. Template extensions, GraphQL types and custom
 * validators are appended one at a time and registration stops at the first rejected entry, so the
 * entries before it stay registered. Menu items are all checked before anything is stored.
 */
module Registry {
  import opened Wrappers
  import opened Navigation

  /** The classes a contributed class must derive from, one per registration function. */
  datatype ExpectedBase = TemplateExtensionBase | GraphQLObjectTypeBase | CustomValidatorBase

  /**
   * A contributed object as the registration functions see it: whether it is a class (and not an
   * instance), which of the expected base classes it derives from, and the model it is bound to
   * (`model` for template extensions and validators, `_meta.model` for GraphQL types).
   */
  datatype Contribution = Contribution(name: string, isClass: bool, bases: set<ExpectedBase>, model: Option<string>)

  /** The TypeError a registration function raises, with the object it names. */
  datatype RegistrationError =
    | PassedAsInstance(contribution: Contribution)
    | NotASubclass(contribution: Contribution, expected: ExpectedBase)
    | NoModel(contribution: Contribution)
    | NotAMenuItem(entry: MenuEntry)
    | NotAMenuButton(slot: ButtonSlot)

  predicate Admissible(c: Contribution, expected: ExpectedBase) {
    c.isClass && expected in c.bases && c.model.Some?
  }

  /** The error the three checks raise for `c`, in their order: class, then subclass, then model. */
  function ContributionFault(c: Contribution, expected: ExpectedBase): (r: Option<RegistrationError>)
    ensures r.None? <==> Admissible(c, expected)
    ensures !c.isClass ==> r == Some(PassedAsInstance(c))
    ensures c.isClass && expected !in c.bases ==> r == Some(NotASubclass(c, expected))
    ensures c.isClass && expected in c.bases && c.model.None? ==> r == Some(NoModel(c))
  {
    if !c.isClass then Some(PassedAsInstance(c))
    else if expected !in c.bases then Some(NotASubclass(c, expected))
    else if c.model.None? then Some(NoModel(c))
    else None
  }

  /** The number of leading entries that pass the checks: registration stops at the first that does not. */
  function AdmittedCount(xs: seq<Contribution>, expected: ExpectedBase): (n: nat)
    ensures n <= |xs|
    ensures forall i :: 0 <= i < n ==> Admissible(xs[i], expected)
    ensures n < |xs| ==> !Admissible(xs[n], expected)
  {
    if xs == [] || !Admissible(xs[0], expected) then 0 else 1 + AdmittedCount(xs[1..], expected)
  }

  /** What a fail-fast registration of `xs` raises, if anything. */
  function RegistrationOutcome(xs: seq<Contribution>, expected: ExpectedBase): Outcome<RegistrationError> {
    var n := AdmittedCount(xs, expected);
    if n == |xs| then Pass else Fail(ContributionFault(xs[n], expected).value)
  }

  /** The list a defaultdict(list) store yields for `key`. */
  function ListFor<T>(store: map<string, seq<T>>, key: string): seq<T> {
    if key in store then store[key] else []
  }

  /** The entries of `xs` bound to model `key`, in their order in `xs`. */
  function OfModel(xs: seq<Contribution>, key: string): (r: seq<Contribution>)
    ensures |r| <= |xs|
    ensures forall c :: c in r ==> c in xs && c.model == Some(key)
    ensures forall i :: 0 <= i < |xs| && xs[i].model == Some(key) ==> xs[i] in r
  {
    if xs == [] then []
    else
      var last := xs[|xs| - 1];
      OfModel(xs[..|xs| - 1], key) + (if last.model == Some(key) then [last] else [])
  }

  /** Filtering a concatenation filters each part and keeps the parts in order. */
  lemma {:induction false} OfModelConcat(xs: seq<Contribution>, ys: seq<Contribution>, key: string)
    ensures OfModel(xs + ys, key) == OfModel(xs, key) + OfModel(ys, key)
  {
    if ys == [] {
      assert xs + ys == xs;
    } else {
      var front := ys[..|ys| - 1];
      assert (xs + ys)[..|xs + ys| - 1] == xs + front;
      OfModelConcat(xs, front, key);
    }
  }

  /** A single entry is kept exactly when it is bound to `key`. */
  lemma OfModelSingleton(c: Contribution, key: string)
    ensures OfModel([c], key) == if c.model == Some(key) then [c] else []
  {
    assert [c][..0] == [];
  }

  /** A list with no entry bound to `key` contributes nothing to that model. */
  lemma {:induction false} NoEntryOfModel(xs: seq<Contribution>, key: string)
    requires forall j :: 0 <= j < |xs| ==> xs[j].model != Some(key)
    ensures OfModel(xs, key) == []
  {
    if xs != [] {
      NoEntryOfModel(xs[..|xs| - 1], key);
    }
  }

  predicate AllBound(xs: seq<Contribution>) {
    forall i :: 0 <= i < |xs| ==> xs[i].model.Some?
  }

  /** `store` after appending each entry of `xs`, in order, to the list under its model. */
  function Grouped(store: map<string, seq<Contribution>>, xs: seq<Contribution>): map<string, seq<Contribution>>
    requires AllBound(xs)
  {
    if xs == [] then store
    else
      var g := Grouped(store, xs[..|xs| - 1]);
      var c := xs[|xs| - 1];
      g[c.model.value := ListFor(g, c.model.value) + [c]]
  }

  /** The last step of grouping: the last entry is appended to its model's list. */
  lemma GroupedLast(store: map<string, seq<Contribution>>, xs: seq<Contribution>)
    requires AllBound(xs) && xs != []
    ensures AllBound(xs[..|xs| - 1])
    ensures var g, c := Grouped(store, xs[..|xs| - 1]), xs[|xs| - 1];
            Grouped(store, xs) == g[c.model.value := ListFor(g, c.model.value) + [c]]
  {
  }

  /** Grouping appends to each model's list exactly that model's entries, in order, and touches no other list. */
  lemma {:induction false} GroupedListFor(store: map<string, seq<Contribution>>, xs: seq<Contribution>, key: string)
    requires AllBound(xs)
    ensures ListFor(Grouped(store, xs), key) == ListFor(store, key) + OfModel(xs, key)
  {
    if xs != [] {
      var front, c := xs[..|xs| - 1], xs[|xs| - 1];
      GroupedLast(store, xs);
      GroupedListFor(store, front, key);
      assert OfModel(xs, key) == OfModel(front, key) + (if c.model == Some(key) then [c] else []);
    }
  }

  /** A model has a list after grouping exactly when it had one before or one of the entries is bound to it. */
  lemma {:induction false} GroupedKeys(store: map<string, seq<Contribution>>, xs: seq<Contribution>, key: string)
    requires AllBound(xs)
    ensures key in Grouped(store, xs) <==> key in store || OfModel(xs, key) != []
  {
    if xs != [] {
      var front, c := xs[..|xs| - 1], xs[|xs| - 1];
      GroupedLast(store, xs);
      GroupedKeys(store, front, key);
    }
  }

  /** The store-level effect of registering `xs` into one model-keyed store. */
  function GroupedAdmitted(store: map<string, seq<Contribution>>, xs: seq<Contribution>, expected: ExpectedBase): map<string, seq<Contribution>> {
    Grouped(store, xs[..AdmittedCount(xs, expected)])
  }

  /** The number of leading elements of a menu item's buttons that are PluginMenuButton instances. */
  function ButtonCount(slots: seq<ButtonSlot>): (n: nat)
    ensures n <= |slots|
    ensures forall i :: 0 <= i < n ==> slots[i].Button?
    ensures n < |slots| ==> !slots[n].Button?
  {
    if slots == [] || !slots[0].Button? then 0 else 1 + ButtonCount(slots[1..])
  }

  predicate WellFormedEntry(e: MenuEntry) {
    e.Item? && forall i :: 0 <= i < |e.item.buttons| ==> e.item.buttons[i].Button?
  }

  /** The number of leading menu entries that register_menu_items accepts. */
  function WellFormedCount(entries: seq<MenuEntry>): (n: nat)
    ensures n <= |entries|
    ensures forall i :: 0 <= i < n ==> WellFormedEntry(entries[i])
    ensures n < |entries| ==> !WellFormedEntry(entries[n])
  {
    if entries == [] || !WellFormedEntry(entries[0]) then 0 else 1 + WellFormedCount(entries[1..])
  }

  /** The TypeError register_menu_items raises for `entries`, if any: the first offending object in traversal order. */
  function MenuFault(entries: seq<MenuEntry>): (r: Option<RegistrationError>)
    ensures r.None? <==> forall i :: 0 <= i < |entries| ==> WellFormedEntry(entries[i])
    ensures r.Some? ==> r.value.NotAMenuItem? || r.value.NotAMenuButton?
  {
    var n := WellFormedCount(entries);
    if n == |entries| then None
    else if !entries[n].Item? then Some(NotAMenuItem(entries[n]))
    else Some(NotAMenuButton(entries[n].item.buttons[ButtonCount(entries[n].item.buttons)]))
  }

  /** Grouping a concatenation is grouping the first part and then the second. */
  lemma {:induction false} GroupedConcat(store: map<string, seq<Contribution>>, xs: seq<Contribution>, ys: seq<Contribution>)
    requires AllBound(xs) && AllBound(ys)
    ensures AllBound(xs + ys)
    ensures Grouped(store, xs + ys) == Grouped(Grouped(store, xs), ys)
  {
    if ys != [] {
      var front := ys[..|ys| - 1];
      assert (xs + ys)[..|xs + ys| - 1] == xs + front;
      GroupedConcat(store, xs, front);
    } else {
      assert xs + ys == xs;
    }
  }

  /** After a list that is accepted whole, registration of `xs + ys` goes on exactly as registration of `ys`. */
  lemma AdmittedCountConcat(xs: seq<Contribution>, ys: seq<Contribution>, expected: ExpectedBase)
    requires forall j :: 0 <= j < |xs| ==> Admissible(xs[j], expected)
    ensures AdmittedCount(xs + ys, expected) == |xs| + AdmittedCount(ys, expected)
  {
    var m := AdmittedCount(ys, expected);
    forall i | 0 <= i < |xs| + m
      ensures Admissible((xs + ys)[i], expected)
    {
      if i >= |xs| {
        assert (xs + ys)[i] == ys[i - |xs|];
      }
    }
    if m < |ys| {
      assert (xs + ys)[|xs| + m] == ys[m];
    }
  }

  /**
   * Registering `xs + ys`, where every entry of `xs` is accepted, is registering `xs` and then `ys`:
   * the same store and the same error. `RegistrationStopsInPrefix` covers an `xs` with a rejected entry.
   */
  lemma RegistrationConcat(store: map<string, seq<Contribution>>, xs: seq<Contribution>, ys: seq<Contribution>, expected: ExpectedBase)
    requires forall j :: 0 <= j < |xs| ==> Admissible(xs[j], expected)
    ensures GroupedAdmitted(store, xs + ys, expected) == GroupedAdmitted(GroupedAdmitted(store, xs, expected), ys, expected)
    ensures RegistrationOutcome(xs + ys, expected) == RegistrationOutcome(ys, expected)
  {
    AdmittedCountConcat(xs, ys, expected);
    AdmittedCountConcat(xs, [], expected);
    assert xs + [] == xs;
    var m := AdmittedCount(ys, expected);
    assert (xs + ys)[..|xs| + m] == xs + ys[..m];
    assert xs[..|xs|] == xs;
    GroupedConcat(store, xs, ys[..m]);
    if m < |ys| {
      assert (xs + ys)[|xs| + m] == ys[m];
    }
  }

  /** When `xs` has a rejected entry, registering `xs + ys` stops inside `xs`: `ys` is never reached. */
  lemma RegistrationStopsInPrefix(store: map<string, seq<Contribution>>, xs: seq<Contribution>, ys: seq<Contribution>, expected: ExpectedBase)
    requires exists j :: 0 <= j < |xs| && !Admissible(xs[j], expected)
    ensures AdmittedCount(xs + ys, expected) == AdmittedCount(xs, expected)
    ensures GroupedAdmitted(store, xs + ys, expected) == GroupedAdmitted(store, xs, expected)
    ensures RegistrationOutcome(xs + ys, expected) == RegistrationOutcome(xs, expected)
  {
    var n := AdmittedCount(xs, expected);
    var j :| 0 <= j < |xs| && !Admissible(xs[j], expected);
    assert n < |xs|;
    forall i | 0 <= i < n
      ensures Admissible((xs + ys)[i], expected)
    {
      assert (xs + ys)[i] == xs[i];
    }
    assert (xs + ys)[n] == xs[n];
    assert (xs + ys)[..n] == xs[..n];
  }

  /** The same for the flat GraphQL list. */
  lemma GraphQLRegistrationConcat(s: Stores, xs: seq<Contribution>, ys: seq<Contribution>)
    requires forall j :: 0 <= j < |xs| ==> Admissible(xs[j], GraphQLObjectTypeBase)
    ensures WithGraphQLTypes(s, xs + ys) == WithGraphQLTypes(WithGraphQLTypes(s, xs).0, ys)
  {
    AdmittedCountConcat(xs, ys, GraphQLObjectTypeBase);
    AdmittedCountConcat(xs, [], GraphQLObjectTypeBase);
    assert xs + [] == xs;
    var m := AdmittedCount(ys, GraphQLObjectTypeBase);
    assert (xs + ys)[..|xs| + m] == xs + ys[..m];
    assert xs[..|xs|] == xs;
    assert s.graphqlTypes + (xs + ys[..m]) == (s.graphqlTypes + xs) + ys[..m];
    if m < |ys| {
      assert (xs + ys)[|xs| + m] == ys[m];
    }
  }

  /** A registration that rejects entry i, after accepting all before it, raises for that entry and leaves exactly xs[..i] registered. */
  lemma FailFastKeepsPrefix(store: map<string, seq<Contribution>>, xs: seq<Contribution>, expected: ExpectedBase, i: nat, key: string)
    requires i < |xs| && !Admissible(xs[i], expected)
    requires forall j :: 0 <= j < i ==> Admissible(xs[j], expected)
    ensures RegistrationOutcome(xs, expected) == Fail(ContributionFault(xs[i], expected).value)
    ensures ListFor(GroupedAdmitted(store, xs, expected), key) == ListFor(store, key) + OfModel(xs[..i], key)
  {
    assert AdmittedCount(xs, expected) == i;
    GroupedListFor(store, xs[..i], key);
  }

  /** A registration whose entries all pass raises nothing and appends every entry to its model's list, in order. */
  lemma AllAdmittedAppendsAll(store: map<string, seq<Contribution>>, xs: seq<Contribution>, expected: ExpectedBase, key: string)
    requires forall j :: 0 <= j < |xs| ==> Admissible(xs[j], expected)
    ensures RegistrationOutcome(xs, expected) == Pass
    ensures ListFor(GroupedAdmitted(store, xs, expected), key) == ListFor(store, key) + OfModel(xs, key)
  {
    assert xs[..AdmittedCount(xs, expected)] == xs;
    GroupedListFor(store, xs, key);
  }

  /** Registration raises nothing exactly when every entry is a class deriving from the expected base with a model. */
  lemma PassIffAllAdmissible(xs: seq<Contribution>, expected: ExpectedBase)
    ensures RegistrationOutcome(xs, expected) == Pass <==> forall j :: 0 <= j < |xs| ==> Admissible(xs[j], expected)
  {
  }

  /** Registering the same list twice appends its entries twice: there is no de-duplication. */
  lemma RegisteringTwiceAppendsTwice(store: map<string, seq<Contribution>>, xs: seq<Contribution>, expected: ExpectedBase, key: string)
    requires forall j :: 0 <= j < |xs| ==> Admissible(xs[j], expected)
    ensures ListFor(GroupedAdmitted(GroupedAdmitted(store, xs, expected), xs, expected), key)
            == ListFor(store, key) + OfModel(xs, key) + OfModel(xs, key)
  {
    AllAdmittedAppendsAll(store, xs, expected, key);
    AllAdmittedAppendsAll(GroupedAdmitted(store, xs, expected), xs, expected, key);
  }

  /** The list of a model none of whose entries are registered is left as it was. */
  lemma OtherModelsUntouched(store: map<string, seq<Contribution>>, xs: seq<Contribution>, expected: ExpectedBase, key: string)
    requires forall j :: 0 <= j < |xs| ==> xs[j].model != Some(key)
    ensures ListFor(GroupedAdmitted(store, xs, expected), key) == ListFor(store, key)
    ensures key in GroupedAdmitted(store, xs, expected) <==> key in store
  {
    var admitted := xs[..AdmittedCount(xs, expected)];
    GroupedListFor(store, admitted, key);
    GroupedKeys(store, admitted, key);
    NoEntryOfModel(admitted, key);
  }

  /** GraphQL types that pass are appended to the flat list in order, up to the first rejected one. */
  lemma GraphQLFailFastKeepsPrefix(s: Stores, xs: seq<Contribution>, i: nat)
    requires i <= |xs|
    requires forall j :: 0 <= j < i ==> Admissible(xs[j], GraphQLObjectTypeBase)
    requires i < |xs| ==> !Admissible(xs[i], GraphQLObjectTypeBase)
    ensures WithGraphQLTypes(s, xs).0.graphqlTypes == s.graphqlTypes + xs[..i]
    ensures WithGraphQLTypes(s, xs).1 == if i == |xs| then Pass else Fail(ContributionFault(xs[i], GraphQLObjectTypeBase).value)
  {
  }

  /** The menu TypeError names the first offending object: a non-item entry, or the first non-button of an item. */
  lemma MenuFaultNamesFirstOffender(entries: seq<MenuEntry>, i: nat)
    requires i < |entries| && !WellFormedEntry(entries[i])
    requires forall j :: 0 <= j < i ==> WellFormedEntry(entries[j])
    ensures !entries[i].Item? ==> MenuFault(entries) == Some(NotAMenuItem(entries[i]))
    ensures entries[i].Item? ==>
              forall k :: 0 <= k < |entries[i].item.buttons| && !entries[i].item.buttons[k].Button? &&
                          (forall j :: 0 <= j < k ==> entries[i].item.buttons[j].Button?) ==>
                MenuFault(entries) == Some(NotAMenuButton(entries[i].item.buttons[k]))
  {
  }

  /** register_menu_items stores nothing when it raises, and otherwise replaces just the one section's list. */
  lemma MenuRegistrationAllOrNothing(s: Stores, sectionName: string, classList: seq<MenuEntry>)
    ensures var (s', outcome) := WithMenuItems(s, sectionName, classList);
            (outcome == Pass <==> forall i :: 0 <= i < |classList| ==> WellFormedEntry(classList[i])) &&
            (outcome.Fail? ==> s' == s) &&
            (outcome == Pass ==> s' == s.(menuItems := s.menuItems[sectionName := classList]))
  {
  }

  /** For a menu section the last successful registration wins; other sections keep their lists. */
  lemma MenuLastWriteWins(s: Stores, sectionName: string, first: seq<MenuEntry>, second: seq<MenuEntry>, other: string)
    requires MenuFault(first).None? && MenuFault(second).None?
    requires other != sectionName
    ensures var s' := WithMenuItems(WithMenuItems(s, sectionName, first).0, sectionName, second).0;
            sectionName in s'.menuItems && s'.menuItems[sectionName] == second &&
            (other in s'.menuItems <==> other in s.menuItems) &&
            (other in s.menuItems ==> s'.menuItems[other] == s.menuItems[other])
  {
  }

  /** The four stores of the registry, as one value. */
  datatype Stores = Stores(
    templateExtensions: map<string, seq<Contribution>>,
    graphqlTypes: seq<Contribution>,
    menuItems: map<string, seq<MenuEntry>>,
    customValidators: map<string, seq<Contribution>>)

  /** The stores as initialised when the plugins package is imported. */
  const EmptyStores := Stores(map[], [], map[], map[])

  function WithTemplateExtensions(s: Stores, classList: seq<Contribution>): (Stores, Outcome<RegistrationError>) {
    (s.(templateExtensions := GroupedAdmitted(s.templateExtensions, classList, TemplateExtensionBase)),
     RegistrationOutcome(classList, TemplateExtensionBase))
  }

  function WithGraphQLTypes(s: Stores, classList: seq<Contribution>): (Stores, Outcome<RegistrationError>) {
    (s.(graphqlTypes := s.graphqlTypes + classList[..AdmittedCount(classList, GraphQLObjectTypeBase)]),
     RegistrationOutcome(classList, GraphQLObjectTypeBase))
  }

  function WithMenuItems(s: Stores, sectionName: string, classList: seq<MenuEntry>): (Stores, Outcome<RegistrationError>) {
    var fault := MenuFault(classList);
    if fault.None? then (s.(menuItems := s.menuItems[sectionName := classList]), Pass)
    else (s, Fail(fault.value))
  }

  function WithCustomValidators(s: Stores, classList: seq<Contribution>): (Stores, Outcome<RegistrationError>) {
    (s.(customValidators := GroupedAdmitted(s.customValidators, classList, CustomValidatorBase)),
     RegistrationOutcome(classList, CustomValidatorBase))
  }

  /** The process-wide `registry` entries owned by the plugins package, updated in place. */
  class PluginRegistry {
    var templateExtensions: map<string, seq<Contribution>>
    var graphqlTypes: seq<Contribution>
    var menuItems: map<string, seq<MenuEntry>>
    var customValidators: map<string, seq<Contribution>>

    function Snapshot(): Stores
      reads this
    {
      Stores(templateExtensions, graphqlTypes, menuItems, customValidators)
    }

    constructor ()
      ensures Snapshot() == EmptyStores
    {
      templateExtensions := map[];
      graphqlTypes := [];
      menuItems := map[];
      customValidators := map[];
    }

    /** register_template_extensions(class_list) */
    method RegisterTemplateExtensions(classList: seq<Contribution>) returns (outcome: Outcome<RegistrationError>)
      modifies this
      ensures (Snapshot(), outcome) == WithTemplateExtensions(old(Snapshot()), classList)
    {
      for i := 0 to |classList|
        invariant forall j :: 0 <= j < i ==> Admissible(classList[j], TemplateExtensionBase)
        invariant templateExtensions == Grouped(old(templateExtensions), classList[..i])
        invariant graphqlTypes == old(graphqlTypes) && menuItems == old(menuItems)
        invariant customValidators == old(customValidators)
      {
        var c := classList[i];
        if !c.isClass {
          return Fail(PassedAsInstance(c));
        }
        if TemplateExtensionBase !in c.bases {
          return Fail(NotASubclass(c, TemplateExtensionBase));
        }
        if c.model.None? {
          return Fail(NoModel(c));
        }
        templateExtensions := templateExtensions[c.model.value := ListFor(templateExtensions, c.model.value) + [c]];
        assert classList[..i + 1][..i] == classList[..i];
      }
      assert classList[..|classList|] == classList;
      return Pass;
    }

    /** register_graphql_types(class_list) */
    method RegisterGraphQLTypes(classList: seq<Contribution>) returns (outcome: Outcome<RegistrationError>)
      modifies this
      ensures (Snapshot(), outcome) == WithGraphQLTypes(old(Snapshot()), classList)
    {
      for i := 0 to |classList|
        invariant forall j :: 0 <= j < i ==> Admissible(classList[j], GraphQLObjectTypeBase)
        invariant graphqlTypes == old(graphqlTypes) + classList[..i]
        invariant templateExtensions == old(templateExtensions) && menuItems == old(menuItems)
        invariant customValidators == old(customValidators)
      {
        var item := classList[i];
        if !item.isClass {
          return Fail(PassedAsInstance(item));
        }
        if GraphQLObjectTypeBase !in item.bases {
          return Fail(NotASubclass(item, GraphQLObjectTypeBase));
        }
        if item.model.None? {
          return Fail(NoModel(item));
        }
        graphqlTypes := graphqlTypes + [item];
        assert classList[..i + 1] == classList[..i] + [item];
      }
      assert classList[..|classList|] == classList;
      return Pass;
    }

    /** register_menu_items(section_name, class_list) */
    method RegisterMenuItems(sectionName: string, classList: seq<MenuEntry>) returns (outcome: Outcome<RegistrationError>)
      modifies this
      ensures (Snapshot(), outcome) == WithMenuItems(old(Snapshot()), sectionName, classList)
    {
      for i := 0 to |classList|
        invariant forall j :: 0 <= j < i ==> WellFormedEntry(classList[j])
      {
        var menuLink := classList[i];
        if !menuLink.Item? {
          return Fail(NotAMenuItem(menuLink));
        }
        var buttons := menuLink.item.buttons;
        for k := 0 to |buttons|
          invariant forall j :: 0 <= j < k ==> buttons[j].Button?
        {
          if !buttons[k].Button? {
            return Fail(NotAMenuButton(buttons[k]));
          }
        }
      }
      menuItems := menuItems[sectionName := classList];
      return Pass;
    }

    /** register_custom_validators(class_list) */
    method RegisterCustomValidators(classList: seq<Contribution>) returns (outcome: Outcome<RegistrationError>)
      modifies this
      ensures (Snapshot(), outcome) == WithCustomValidators(old(Snapshot()), classList)
    {
      for i := 0 to |classList|
        invariant forall j :: 0 <= j < i ==> Admissible(classList[j], CustomValidatorBase)
        invariant customValidators == Grouped(old(customValidators), classList[..i])
        invariant templateExtensions == old(templateExtensions) && graphqlTypes == old(graphqlTypes)
        invariant menuItems == old(menuItems)
      {
        var customValidator := classList[i];
        if !customValidator.isClass {
          return Fail(PassedAsInstance(customValidator));
        }
        if CustomValidatorBase !in customValidator.bases {
          return Fail(NotASubclass(customValidator, CustomValidatorBase));
        }
        if customValidator.model.None? {
          return Fail(NoModel(customValidator));
        }
        customValidators := customValidators[customValidator.model.value :=
                                               ListFor(customValidators, customValidator.model.value) + [customValidator]];
        assert classList[..i + 1][..i] == classList[..i];
      }
      assert classList[..|classList|] == classList;
      return Pass;
    }
  }
}
