/** The configuration compiler on shared tables: two loops that walk maps in any order and update the stores' tables
    in place. Whatever the order, they compute the function of ConfigCompile. */
module ConfigValidate {
  import opened Wrappers
  import opened ConfigModel
  import opened ConfigProps
  import opened ConfigDefaults
  import opened Migrations
  import opened ConfigCompile

  /** A store as it is passed around: copies of it share its prop table and its filter table. */
  datatype StoreRef = StoreRef(
    name: string,
    kind: StoreKind,
    props: PropTable?,
    filters: FilterTable?,
    access: seq<string>,
    migrations: seq<Migration>,
    rest: string)

  ghost function View(s: StoreRef): Store
    reads s.props, s.filters
  {
    Store(s.name, s.kind, PropsIn(s.props), FiltersIn(s.filters), s.access, s.migrations, s.rest)
  }

  function PropTables(stores: map<string, StoreRef>): set<PropTable?> {
    set n | n in stores :: stores[n].props
  }

  function FilterTables(stores: map<string, StoreRef>): set<FilterTable?> {
    set n | n in stores :: stores[n].filters
  }

  ghost function Views(stores: map<string, StoreRef>): map<string, Store>
    reads PropTables(stores), FilterTables(stores)
  {
    map n | n in stores :: View(stores[n])
  }

  predicate Apart(a: StoreRef, b: StoreRef) {
    (a.props != null ==> a.props != b.props) && (a.filters != null ==> a.filters != b.filters)
  }

  /** Distinct stores have distinct tables, as stores read from a file do. */
  predicate AllApart(stores: map<string, StoreRef>) {
    forall a, b :: a in stores && b in stores && a != b ==> Apart(stores[a], stores[b])
  }

  // ---- Who shares what ----

  /** Writing the tables of `s` touches no store of the map. */
  predicate Foreign(s: StoreRef, m: map<string, StoreRef>) {
    forall n :: n in m ==> Apart(s, m[n])
  }

  function Only(m: map<string, StoreRef>, names: set<string>): map<string, StoreRef> {
    map n | n in m && n in names :: m[n]
  }

  function OnlyViews(m: map<string, Store>, names: set<string>): map<string, Store> {
    map n | n in m && n in names :: m[n]
  }

  /** Every store of the map uses the tables of its origin, or tables made for it. */
  predicate Sourced(m: map<string, StoreRef>, origin: map<string, StoreRef>, props: set<PropTable>,
                    filters: set<FilterTable>)
  {
    && (forall n :: n in m ==> n in origin)
    && (forall n :: n in m ==> m[n].props == null || m[n].props == origin[n].props || m[n].props in props)
    && (forall n :: n in m ==> m[n].filters == null || m[n].filters == origin[n].filters || m[n].filters in filters)
  }

  predicate Unused(origin: map<string, StoreRef>, props: set<PropTable>, filters: set<FilterTable>) {
    forall n :: n in origin ==> origin[n].props !in props && origin[n].filters !in filters
  }

  lemma SourcedForeign(m: map<string, StoreRef>, origin: map<string, StoreRef>, props: set<PropTable>,
                       filters: set<FilterTable>, name: string)
    requires AllApart(origin) && Sourced(m, origin, props, filters) && Unused(origin, props, filters)
    requires name in origin && name !in m
    ensures Foreign(origin[name], m)
  {
    forall n | n in m ensures Apart(origin[name], m[n]) {
      assert Apart(origin[name], origin[n]);
    }
  }

  lemma OthersForeign(origin: map<string, StoreRef>, names: set<string>, name: string)
    requires AllApart(origin) && name in origin && name !in names
    ensures Foreign(origin[name], Only(origin, names))
  {
  }

  /** A store is added with its origin's tables or with new ones. */
  lemma SourcedAdd(m: map<string, StoreRef>, origin: map<string, StoreRef>, props: set<PropTable>,
                   filters: set<FilterTable>, name: string, s: StoreRef, newProps: set<PropTable>,
                   newFilters: set<FilterTable>)
    requires AllApart(origin) && AllApart(m) && Sourced(m, origin, props, filters) && Unused(origin, props, filters)
    requires name in origin && name !in m
    requires s.props == null || s.props == origin[name].props || s.props in newProps
    requires s.filters == null || s.filters == origin[name].filters || s.filters in newFilters
    requires props !! newProps && filters !! newFilters && Unused(origin, newProps, newFilters)
    ensures AllApart(m[name := s]) && Sourced(m[name := s], origin, props + newProps, filters + newFilters)
  {
    forall n | n in m ensures Apart(s, m[n]) && Apart(m[n], s) {
      assert Apart(origin[name], origin[n]) && Apart(origin[n], origin[name]);
    }
  }

  // ---- First loop ----

  method ValidateOne(name: string, o: StoreRef) returns (ok: bool, r: StoreRef, ghost made: set<PropTable>)
    modifies {o.props}`props
    ensures ok <==> FirstPass(name, old(View(o))).Some?
    ensures ok ==> View(r) == FirstPass(name, old(View(o))).value
    ensures r.filters == o.filters && (r.props == null || r.props == o.props || r.props in made) && fresh(made)
  {
    made := {};
    r := o.(name := name);
    if r.props == null {
      var t := new PropTable(map[]);
      made := {t};
      r := r.(props := t);
    }
    match o.kind {
      case MapStore | Workspace => r := r.(props := null);
      case Single => r.props.props := r.props.props["_id" := BLANK.(kind := StringKind, display := "none")];
      case OtherStore(_) => r := r.(kind := Directory);
      case _ =>
    }
    ok := true;
    if r.props != null {
      ok := ValidateProps(r.props, true);
    }
  }

  /** The same, seen from stores that share no table with this one. */
  method ValidateApart(name: string, o: StoreRef, ghost a: map<string, StoreRef>, ghost b: map<string, StoreRef>)
    returns (ok: bool, r: StoreRef, ghost made: set<PropTable>)
    requires Foreign(o, a) && Foreign(o, b)
    modifies {o.props}`props
    ensures ok <==> FirstPass(name, old(View(o))).Some?
    ensures ok ==> View(r) == FirstPass(name, old(View(o))).value
    ensures r.filters == o.filters && (r.props == null || r.props == o.props || r.props in made) && fresh(made)
    ensures Views(a) == old(Views(a)) && Views(b) == old(Views(b))
  {
    ok, r, made := ValidateOne(name, o);
  }

  /** Stores whose tables did not change look the same. */
  twostate lemma ViewsKept(m: map<string, StoreRef>)
    requires forall n :: n in m && m[n].props != null ==> m[n].props.props == old(m[n].props.props)
    requires forall n :: n in m && m[n].filters != null ==> m[n].filters.filters == old(m[n].filters.filters)
    ensures Views(m) == old(Views(m))
  {
  }

  lemma ViewsAdd(m: map<string, StoreRef>, name: string, s: StoreRef)
    ensures Views(m[name := s]) == Views(m)[name := View(s)]
  {
  }

  lemma ViewsOnly(m: map<string, StoreRef>, names: set<string>)
    ensures Views(Only(m, names)) == OnlyViews(Views(m), names)
  {
  }

  method KeepValid(conf: map<string, StoreRef>, ghost start: map<string, Store>, ghost goal: map<string, Store>)
    returns (kept: map<string, StoreRef>, ghost made: set<PropTable>)
    requires AllApart(conf) && start == Views(conf) && goal == Survivors(start)
    modifies PropTables(conf)`props
    ensures AllApart(kept) && Sourced(kept, conf, made, {}) && fresh(made)
    ensures Views(kept) == goal
  {
    kept, made := map[], {};
    var todo := conf.Keys;
    assert Only(conf, todo) == conf && OnlyViews(start, todo) == start;
    while todo != {}
      invariant todo <= conf.Keys
      invariant Views(Only(conf, todo)) == OnlyViews(start, todo)
      invariant Views(kept) == OnlyViews(goal, goal.Keys - todo)
      invariant AllApart(kept) && Sourced(kept, conf, made, {})
      invariant fresh(made)
      decreases todo
    {
      var name :| name in todo;
      var rest := todo - {name};
      assert View(conf[name]) == start[name] by {
        assert Views(Only(conf, todo))[name] == start[name];
      }
      assert Unused(conf, made, {});
      assert name !in kept by { assert name !in Views(kept); }
      SourcedForeign(kept, conf, made, {}, name);
      OthersForeign(conf, rest, name);
      ghost var views := Views(Only(conf, rest));
      assert views == OnlyViews(start, rest) by {
        RestViews(conf, todo, rest, start);
      }
      var ok, o;
      ghost var news;
      PartDone(goal, todo, name);
      ok, o, news := ValidateApart(name, conf[name], kept, Only(conf, rest));
      assert fresh(made + news);
      if ok {
        ViewsAdd(kept, name, o);
        SourcedAdd(kept, conf, made, {}, name, o, news, {});
        kept := kept[name := o];
        made := made + news;
      }
      todo := rest;
    }
  }

  /** The part of a map that has been dealt with, after one more name. */
  lemma PartDone(goal: map<string, Store>, todo: set<string>, name: string)
    requires name in todo
    ensures OnlyViews(goal, goal.Keys - (todo - {name}))
         == if name in goal then OnlyViews(goal, goal.Keys - todo)[name := goal[name]]
            else OnlyViews(goal, goal.Keys - todo)
  {
  }

  lemma RestViews(m: map<string, StoreRef>, names: set<string>, fewer: set<string>, views: map<string, Store>)
    requires fewer <= names && Views(Only(m, names)) == OnlyViews(views, names)
    ensures Views(Only(m, fewer)) == OnlyViews(views, fewer)
  {
    ViewsOnly(Only(m, names), fewer);
    assert Only(Only(m, names), fewer) == Only(m, fewer);
    assert OnlyViews(OnlyViews(views, names), fewer) == OnlyViews(views, fewer);
  }

  // ---- Second loop ----

  /** The loop that loads a default store's props; a nil table is made on the first write. */
  method LoadAll(props: PropTable?, defaults: PropTable?) returns (r: PropTable?)
    requires props != null ==> props != defaults
    modifies {props}`props
    ensures r == props || fresh(r)
    ensures PropsIn(r) == Layered(old(PropsIn(props)), old(PropsIn(defaults)))
  {
    r := props;
    if defaults == null {
      return;
    }
    if r == null {
      r := new PropTable(map[]);
    }
    LoadDefaults(r, defaults);
  }

  /** One default store under a store: its filters unless only its access rules are wanted, then its props. */
  method LayerDefault(s: StoreRef, d: StoreRef, accessOnly: bool) returns (r: StoreRef)
    requires Apart(s, d)
    modifies {s.props}`props, {s.filters}`filters
    ensures r.props == s.props || fresh(r.props)
    ensures r.filters == s.filters || fresh(r.filters)
    ensures View(r) == old(View(s)).(
        props := Layered(old(View(s)).props, old(View(d)).props),
        filters := if accessOnly then old(View(s)).filters
                   else FiltersMerged(old(View(s)).filters, old(View(d)).filters),
        access := if accessOnly then AccessMerged(s.access, d.access) else s.access)
  {
    r := s;
    if accessOnly {
      var access := MergeAccess(s.access, d.access);
      r := r.(access := access);
    } else {
      var filters := MergeFilters(s.filters, d.filters);
      r := r.(filters := filters);
    }
    var props := LoadAll(s.props, d.props);
    r := r.(props := props);
  }

  /** The layer of one default store on a store, as a function. */
  function WithLayer(s: Store, stores: map<string, Store>, name: string, accessOnly: bool): Store {
    if name !in stores then s
    else
      var d := stores[name];
      s.(props := Layered(s.props, d.props),
         filters := if accessOnly then s.filters else FiltersMerged(s.filters, d.filters),
         access := if accessOnly then AccessMerged(s.access, d.access) else s.access)
  }

  lemma MergedIsTwoLayers(s: Store, stores: map<string, Store>)
    requires !IsDefault(s.name)
    ensures var once := WithLayer(s, stores, DEFAULT_DIRECTORY, false);
      Merged(s, stores) == match TypeDefault(s.kind)
                           case None => once
                           case Some(name) => WithLayer(once, stores, name, s.kind.Notification?)
  {
    var once := WithLayer(s, stores, DEFAULT_DIRECTORY, false);
    LayeredNothing(s.props);
    NothingMerged(s.filters);
    LayeredNothing(once.props);
    NothingMerged(once.filters);
  }

  method LayerNamed(s: StoreRef, name: string, accessOnly: bool, stores: map<string, StoreRef>,
                    ghost pristine: map<string, Store>) returns (r: StoreRef)
    requires stores.Keys == pristine.Keys
    requires name in stores ==> View(stores[name]) == pristine[name] && Apart(s, stores[name])
    modifies {s.props}`props, {s.filters}`filters
    ensures r.props == s.props || fresh(r.props)
    ensures r.filters == s.filters || fresh(r.filters)
    ensures View(r) == WithLayer(old(View(s)), pristine, name, accessOnly)
  {
    r := s;
    if name in stores {
      r := LayerDefault(s, stores[name], accessOnly);
    }
  }

  ghost predicate DefaultsPristine(stores: map<string, StoreRef>, pristine: map<string, Store>)
    reads PropTables(stores), FilterTables(stores)
  {
    stores.Keys == pristine.Keys && forall d :: d in stores && IsDefault(d) ==> View(stores[d]) == pristine[d]
  }

  predicate Separate(s: StoreRef, stores: map<string, StoreRef>) {
    forall d :: d in stores && IsDefault(d) ==> Apart(s, stores[d])
  }

  /** The type's default, if it has one, on a store that already has the general one. */
  method LayerType(s: StoreRef, stores: map<string, StoreRef>, ghost pristine: map<string, Store>) returns (r: StoreRef)
    requires Separate(s, stores) && DefaultsPristine(stores, pristine)
    modifies {s.props}`props, {s.filters}`filters
    ensures View(r) == match TypeDefault(s.kind)
                       case None => old(View(s))
                       case Some(name) => WithLayer(old(View(s)), pristine, name, s.kind.Notification?)
    ensures r.props == s.props || fresh(r.props)
    ensures r.filters == s.filters || fresh(r.filters)
  {
    r := s;
    match s.kind {
      case Process => r := LayerNamed(s, DEFAULT_PROCESS, false, stores, pristine);
      case Notification => r := LayerNamed(s, DEFAULT_NOTIFICATION, true, stores, pristine);
      case Single => r := LayerNamed(s, DEFAULT_SINGLE, false, stores, pristine);
      case _ =>
    }
  }

  method MergeOne(s: StoreRef, stores: map<string, StoreRef>, ghost pristine: map<string, Store>) returns (r: StoreRef)
    requires !IsDefault(s.name) && Separate(s, stores) && DefaultsPristine(stores, pristine)
    modifies {s.props}`props, {s.filters}`filters
    ensures View(r) == Merged(old(View(s)), pristine)
    ensures r.props == s.props || fresh(r.props)
    ensures r.filters == s.filters || fresh(r.filters)
  {
    MergedIsTwoLayers(View(s), pristine);
    r := LayerNamed(s, DEFAULT_DIRECTORY, false, stores, pristine);
    r := LayerType(r, stores, pristine);
  }

  method PruneMigrations(migrations: seq<Migration>) returns (r: seq<Migration>)
    ensures exists sorted :: SortedFrom(sorted, migrations) && r == Pruned(sorted)
  {
    r := migrations;
    if |migrations| > 0 {
      var a := new Migration[|migrations|](i requires 0 <= i < |migrations| => migrations[i]);
      assert a[..] == migrations;
      var n, sorted := SortAndPrune(a);
      r := a[..n];
    } else {
      assert SortedFrom([], migrations) && r == Pruned([]);
    }
  }


  /** The merge seen from stores that share no table with this one. */
  method MergeApart(s: StoreRef, stores: map<string, StoreRef>, ghost pristine: map<string, Store>,
                    ghost a: map<string, StoreRef>, ghost b: map<string, StoreRef>)
    returns (r: StoreRef, ghost props: set<PropTable>, ghost filters: set<FilterTable>)
    requires !IsDefault(s.name) && Separate(s, stores) && Foreign(s, a) && Foreign(s, b)
    requires DefaultsPristine(stores, pristine)
    modifies {s.props}`props, {s.filters}`filters
    ensures View(r) == Merged(old(View(s)), pristine)
    ensures r.props == null || r.props == s.props || r.props in props
    ensures r.filters == null || r.filters == s.filters || r.filters in filters
    ensures fresh(props) && fresh(filters)
    ensures Views(a) == old(Views(a)) && Views(b) == old(Views(b))
  {
    r := MergeOne(s, stores, pristine);
    ViewsKept(a);
    ViewsKept(b);
    props := if r.props == s.props || r.props == null then {} else {r.props};
    filters := if r.filters == s.filters || r.filters == null then {} else {r.filters};
  }

  /** The body of the second loop for one store: nothing if a reference dangles; a default store is only read.
      Stores that share no table with it do not change. */
  method CompileOne(s: StoreRef, stores: map<string, StoreRef>, ghost pristine: map<string, Store>,
                    ghost a: map<string, StoreRef>, ghost b: map<string, StoreRef>)
    returns (keep: bool, r: StoreRef, ghost props: set<PropTable>, ghost filters: set<FilterTable>)
    requires !IsDefault(s.name) ==> Separate(s, stores) && Foreign(s, a) && Foreign(s, b)
    requires DefaultsPristine(stores, pristine)
    modifies {s.props}`props, {s.filters}`filters
    ensures keep <==> RefsOk(old(View(s)).props, pristine.Keys)
    ensures keep ==> IsOutput(View(r), Merged(old(View(s)), pristine)) && r.name == s.name
    ensures r.props == null || r.props == s.props || r.props in props
    ensures r.filters == null || r.filters == s.filters || r.filters in filters
    ensures fresh(props) && fresh(filters)
    ensures Views(a) == old(Views(a)) && Views(b) == old(Views(b))
  {
    r, props, filters := s, {}, {};
    keep := s.props == null || RefsOk(s.props.props, stores.Keys);
    if keep {
      if !IsDefault(s.name) {
        r, props, filters := MergeApart(s, stores, pristine, a, b);
      }
      label merged:
      var migrations := PruneMigrations(r.migrations);
      ViewsKept@merged(a);
      ViewsKept@merged(b);
      r := r.(migrations := migrations);
    }
  }

  /** The stores whose tables must still be as the first loop left them: those to come, and the defaults. */
  function Pending(stores: map<string, StoreRef>, todo: set<string>): set<string> {
    set n | n in stores && (n in todo || IsDefault(n))
  }

  lemma PendingViews(stores: map<string, StoreRef>, todo: set<string>, pristine: map<string, Store>)
    requires stores.Keys == pristine.Keys
    requires Views(Only(stores, Pending(stores, todo))) == OnlyViews(pristine, Pending(stores, todo))
    ensures DefaultsPristine(stores, pristine)
    ensures forall n :: n in todo && n in stores ==> View(stores[n]) == pristine[n]
  {
    var pending := Pending(stores, todo);
    forall n | n in pending ensures View(stores[n]) == pristine[n] {
      assert Views(Only(stores, pending))[n] == OnlyViews(pristine, pending)[n];
    }
  }

  lemma PendingForeign(stores: map<string, StoreRef>, todo: set<string>, name: string)
    requires AllApart(stores) && name in stores && name !in todo && !IsDefault(name)
    ensures Separate(stores[name], stores) && Foreign(stores[name], Only(stores, Pending(stores, todo)))
  {
    OthersForeign(stores, Pending(stores, todo), name);
  }

  /** The stores shown so far are the outputs of the goal that have been dealt with. */
  ghost predicate Shown(shown: map<string, Store>, goal: map<string, Store>, todo: set<string>) {
    && (forall n :: n in shown <==> n in goal && n !in todo)
    && (forall n :: n in shown && n in goal ==> IsOutput(shown[n], goal[n]))
  }

  lemma ShownAdd(shown: map<string, Store>, goal: map<string, Store>, todo: set<string>, name: string, out: Store)
    requires Shown(shown, goal, todo) && name in todo
    ensures name !in goal ==> Shown(shown, goal, todo - {name})
    ensures name in goal && IsOutput(out, goal[name]) ==> Shown(shown[name := out], goal, todo - {name})
  {
  }

  lemma AllPending(stores: map<string, StoreRef>, pristine: map<string, Store>)
    requires pristine == Views(stores)
    ensures var all := Pending(stores, stores.Keys); Views(Only(stores, all)) == OnlyViews(pristine, all)
  {
    assert Only(stores, Pending(stores, stores.Keys)) == stores;
    assert OnlyViews(pristine, Pending(stores, stores.Keys)) == pristine;
  }

  /** Where the second loop stands: what is pending is pristine, what is done is shown, no table is shared. */
  ghost predicate Progress(stores: map<string, StoreRef>, pristine: map<string, Store>, goal: map<string, Store>,
                           config: map<string, StoreRef>, props: set<PropTable>, filters: set<FilterTable>,
                           todo: set<string>)
    reads PropTables(stores), FilterTables(stores), PropTables(config), FilterTables(config)
  {
    && todo <= stores.Keys == pristine.Keys
    && Views(Only(stores, Pending(stores, todo))) == OnlyViews(pristine, Pending(stores, todo))
    && Shown(Views(config), goal, todo)
    && AllApart(config) && Sourced(config, stores, props, filters) && Unused(stores, props, filters)
  }

  /** Before each turn: the store and the defaults are pristine, and its tables are nobody else's. */
  lemma Ready(stores: map<string, StoreRef>, pristine: map<string, Store>, goal: map<string, Store>,
              config: map<string, StoreRef>, props: set<PropTable>, filters: set<FilterTable>,
              todo: set<string>, name: string)
    requires AllApart(stores) && Progress(stores, pristine, goal, config, props, filters, todo) && name in todo
    ensures name !in config && DefaultsPristine(stores, pristine) && View(stores[name]) == pristine[name]
    ensures var rest := Pending(stores, todo - {name});
      && Views(Only(stores, rest)) == OnlyViews(pristine, rest)
      && Foreign(stores[name], config)
      && (!IsDefault(name) ==> Separate(stores[name], stores) && Foreign(stores[name], Only(stores, rest)))
  {
    PendingViews(stores, todo, pristine);
    assert name !in config by {
      assert name !in Views(config);
    }
    SourcedForeign(config, stores, props, filters, name);
    if !IsDefault(name) {
      PendingForeign(stores, todo - {name}, name);
    }
    RestViews(stores, Pending(stores, todo), Pending(stores, todo - {name}), pristine);
  }

  lemma AddOutput(stores: map<string, StoreRef>, config: map<string, StoreRef>, props: set<PropTable>,
                  filters: set<FilterTable>, name: string, s: StoreRef, newProps: set<PropTable>,
                  newFilters: set<FilterTable>)
    requires AllApart(stores) && AllApart(config) && Sourced(config, stores, props, filters)
    requires Unused(stores, props, filters) && name in stores && name !in config
    requires s.props == null || s.props == stores[name].props || s.props in newProps
    requires s.filters == null || s.filters == stores[name].filters || s.filters in newFilters
    requires props !! newProps && filters !! newFilters && Unused(stores, newProps, newFilters)
    ensures AllApart(config[name := s]) && Sourced(config[name := s], stores, props + newProps, filters + newFilters)
    ensures Views(config[name := s]) == Views(config)[name := View(s)]
  {
    ViewsAdd(config, name, s);
    SourcedAdd(config, stores, props, filters, name, s, newProps, newFilters);
  }

  /** One turn of the second loop. */
  method MergeTurn(stores: map<string, StoreRef>, ghost pristine: map<string, Store>, ghost goal: map<string, Store>,
                   config: map<string, StoreRef>, ghost props: set<PropTable>, ghost filters: set<FilterTable>,
                   ghost todo: set<string>, name: string)
    returns (next: map<string, StoreRef>, ghost newProps: set<PropTable>, ghost newFilters: set<FilterTable>)
    requires AllApart(stores) && Progress(stores, pristine, goal, config, props, filters, todo)
    requires name in todo && stores[name].name == name
    requires name in goal <==> RefsOk(pristine[name].props, pristine.Keys)
    requires name in goal ==> goal[name] == Merged(pristine[name], pristine)
    modifies {stores[name].props}`props, {stores[name].filters}`filters
    ensures Progress(stores, pristine, goal, next, props + newProps, filters + newFilters, todo - {name})
    ensures fresh(newProps) && fresh(newFilters)
  {
    Ready(stores, pristine, goal, config, props, filters, todo, name);
    next := config;
    var keep, store;
    ghost var shown := Views(config);
    ghost var rests := Only(stores, Pending(stores, todo - {name}));
    keep, store, newProps, newFilters := CompileOne(stores[name], stores, pristine, config, rests);
    ShownAdd(shown, goal, todo, name, View(store));
    if keep {
      AddOutput(stores, config, props, filters, name, store, newProps, newFilters);
      next := config[store.name := store];
    } else {
      newProps, newFilters := {}, {};
      assert props + newProps == props && filters + newFilters == filters;
    }
  }

  method MergeAll(stores: map<string, StoreRef>, ghost pristine: map<string, Store>, ghost goal: map<string, Store>)
    returns (config: map<string, StoreRef>)
    requires AllApart(stores) && pristine == Views(stores)
    requires forall n :: n in stores ==> stores[n].name == n
    requires goal == map n | n in pristine && RefsOk(pristine[n].props, pristine.Keys) :: Merged(pristine[n], pristine)
    modifies PropTables(stores)`props, FilterTables(stores)`filters
    ensures Shown(Views(config), goal, {})
  {
    config := map[];
    ghost var props, filters := {}, {};
    var todo := stores.Keys;
    AllPending(stores, pristine);
    while todo != {}
      invariant Progress(stores, pristine, goal, config, props, filters, todo)
      invariant fresh(props)
      invariant fresh(filters)
      decreases todo
    {
      var name :| name in todo;
      ghost var newProps, newFilters;
      config, newProps, newFilters := MergeTurn(stores, pristine, goal, config, props, filters, todo, name);
      assert fresh(props + newProps);
      assert fresh(filters + newFilters);
      props, filters := props + newProps, filters + newFilters;
      todo := todo - {name};
    }
  }

  /** Compiles a configuration. The output is the same for every order in which the maps are walked, up to which of
      several migrations of one version the sort puts last. */
  method Validate(conf: map<string, StoreRef>) returns (config: map<string, StoreRef>)
    requires AllApart(conf)
    modifies PropTables(conf)`props, FilterTables(conf)`filters
    ensures var compiled := Compiled(old(Views(conf)));
      && config.Keys == compiled.Keys
      && forall n :: n in config ==> IsOutput(View(config[n]), compiled[n])
  {
    ghost var start := Views(conf);
    ghost var stores := Survivors(start);
    var kept;
    ghost var made;
    kept, made := KeepValid(conf, start, stores);
    forall n | n in kept ensures kept[n].name == n {
      assert Views(kept)[n] == stores[n];
      SurvivorsTyped(start, n);
    }
    config := MergeAll(kept, stores, Compiled(start));
    forall n | n in config ensures n in Compiled(start) && IsOutput(View(config[n]), Compiled(start)[n]) {
      assert Views(config)[n] == View(config[n]);
    }
    assert config.Keys == Views(config).Keys;
  }
}
