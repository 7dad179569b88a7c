/** What compiling a configuration computes, as one function of the input: keep the stores whose props are valid,
    drop those with a reference to a store that was not kept, layer the defaults over the rest. */
module ConfigCompile {
  import opened Wrappers
  import opened ConfigModel
  import opened ConfigProps
  import opened ConfigDefaults
  import opened Migrations

  datatype StoreKind =
    | Directory | Process | MapStore | Workspace | Campaign | Notification | Single | FileStore | Proxy
    | OtherStore(typeName: string)

  datatype Store = Store(
    name: string,
    kind: StoreKind,
    props: Props,
    filters: Filters,
    access: seq<string>,
    migrations: seq<Migration>,
    rest: string)

  const DEFAULT_DIRECTORY := "_default"
  const DEFAULT_PROCESS := "_defaultProcess"
  const DEFAULT_CAMPAIGN := "_defaultCampaign"
  const DEFAULT_NOTIFICATION := "_defaultNotifications"
  const DEFAULT_SINGLE := "_defaultSingle"

  predicate IsDefault(name: string) {
    || name == DEFAULT_DIRECTORY || name == DEFAULT_PROCESS || name == DEFAULT_CAMPAIGN
    || name == DEFAULT_NOTIFICATION || name == DEFAULT_SINGLE
  }

  // ---- First pass: each store by itself ----

  function KnownKind(kind: StoreKind): StoreKind { if kind.OtherStore? then Directory else kind }

  /** Maps and workspaces have no props; a single store gets a fixed `_id`. */
  function StartingProps(kind: StoreKind, props: Props): Props {
    match kind
    case MapStore | Workspace => map[]
    case Single => props["_id" := BLANK.(kind := StringKind, display := "none")]
    case _ => props
  }

  function FirstPass(name: string, o: Store): Option<Store> {
    var props := StartingProps(o.kind, o.props);
    if AllValid(props, true)
    then Some(o.(name := name, kind := KnownKind(o.kind), props := Normalised(props, true)))
    else None
  }

  function Survivors(conf: map<string, Store>): map<string, Store> {
    map name | name in conf && FirstPass(name, conf[name]).Some? :: FirstPass(name, conf[name]).value
  }

  // ---- References ----

  predicate TopDangles(p: Prop, names: set<string>) { IsRef(p) && p.store !in names }

  predicate NestedDangles(p: Prop, names: set<string>) {
    exists k :: k in p.props && TopDangles(p.props[k], names)
  }

  predicate Dangles(p: Prop, names: set<string>) { TopDangles(p, names) || NestedDangles(p, names) }

  /** Every reference of the store, top level or one level nested, names one of the given stores. */
  predicate RefsOk(props: Props, names: set<string>) {
    forall k :: k in props ==> !Dangles(props[k], names)
  }

  /** A ref, a refList or a virtualRefList names one of the stores. */
  predicate NamesOneOf(p: Prop, names: set<string>) {
    p.kind == RefKind || p.kind == RefListKind || p.kind == VirtualRefListKind ==> p.store in names
  }

  /** So do all such props of a table, at the top level and one level nested. */
  predicate AllNameOneOf(props: Props, names: set<string>) {
    && (forall k :: k in props ==> NamesOneOf(props[k], names))
    && (forall k, j :: k in props && j in props[k].props ==> NamesOneOf(props[k].props[j], names))
  }

  lemma ReferencesSpelledOut(props: Props, names: set<string>)
    ensures RefsOk(props, names) <==> AllNameOneOf(props, names)
  {
    forall p: Prop ensures TopDangles(p, names) <==> !NamesOneOf(p, names) {
    }
    if RefsOk(props, names) {
      forall k | k in props ensures NamesOneOf(props[k], names) {
        assert !Dangles(props[k], names);
      }
      forall k, j | k in props && j in props[k].props ensures NamesOneOf(props[k].props[j], names) {
        assert !Dangles(props[k], names);
      }
    }
  }

  // ---- Default layers ----

  function PropsOf(stores: map<string, Store>, name: string): Props {
    if name in stores then stores[name].props else map[]
  }

  function FiltersOf(stores: map<string, Store>, name: string): Filters {
    if name in stores then stores[name].filters else map[]
  }

  function AccessOf(stores: map<string, Store>, name: string): seq<string> {
    if name in stores then stores[name].access else []
  }

  /** The default store of the type, for the types that have one. */
  function TypeDefault(kind: StoreKind): Option<string> {
    match kind
    case Process => Some(DEFAULT_PROCESS)
    case Notification => Some(DEFAULT_NOTIFICATION)
    case Single => Some(DEFAULT_SINGLE)
    case _ => None
  }

  function SecondProps(kind: StoreKind, stores: map<string, Store>): Props {
    if TypeDefault(kind).Some? then PropsOf(stores, TypeDefault(kind).value) else map[]
  }

  /** The notification default lends its access rules instead of its filters. */
  function SecondFilters(kind: StoreKind, stores: map<string, Store>): Filters {
    if TypeDefault(kind).Some? && !kind.Notification? then FiltersOf(stores, TypeDefault(kind).value) else map[]
  }

  function Merged(s: Store, stores: map<string, Store>): Store {
    if IsDefault(s.name) then s
    else
      s.(props := Layered(Layered(s.props, PropsOf(stores, DEFAULT_DIRECTORY)), SecondProps(s.kind, stores)),
         filters := FiltersMerged(FiltersMerged(s.filters, FiltersOf(stores, DEFAULT_DIRECTORY)),
                                  SecondFilters(s.kind, stores)),
         access := if s.kind.Notification? then AccessMerged(s.access, AccessOf(stores, DEFAULT_NOTIFICATION))
                   else s.access)
  }

  /** The compiled configuration, its migrations not yet sorted and pruned. */
  function Compiled(conf: map<string, Store>): map<string, Store> {
    var stores := Survivors(conf);
    map name | name in stores && RefsOk(stores[name].props, stores.Keys) :: Merged(stores[name], stores)
  }

  /** An output store: the compiled one with its migrations pruned, in some order of equal versions. */
  ghost predicate IsOutput(out: Store, compiled: Store) {
    && out == compiled.(migrations := out.migrations)
    && exists sorted :: SortedFrom(sorted, compiled.migrations) && out.migrations == Pruned(sorted)
  }

  // ---- References after layering ----

  /** What validation guarantees of every prop it passes: it has a type, and a reference names some store. */
  predicate Typed(p: Prop) { !p.kind.Untyped? && (IsRef(p) ==> p.store != "") }

  predicate AllTyped(props: Props) { forall k :: k in props ==> Typed(props[k]) }

  lemma ShapeTyped(name: string, p: Prop)
    requires Shape(name, p)
    ensures Typed(p)
  {
  }

  lemma NormalisedTyped(props: Props)
    requires AllValid(props, true)
    ensures AllTyped(Normalised(props, true))
  {
    NormalisedIsNormal(props);
    var done := Normalised(props, true);
    forall k | k in done ensures Typed(done[k]) {
      ShapeTyped(k, done[k]);
    }
  }

  lemma SurvivorsTyped(conf: map<string, Store>, name: string)
    requires name in Survivors(conf)
    ensures AllTyped(Survivors(conf)[name].props) && Survivors(conf)[name].name == name
  {
    NormalisedTyped(StartingProps(conf[name].kind, conf[name].props));
  }

  lemma DefaultTyped(conf: map<string, Store>, name: string)
    ensures AllTyped(PropsOf(Survivors(conf), name))
  {
    if name in Survivors(conf) {
      SurvivorsTyped(conf, name);
    }
  }

  /** Overriding keeps the store's own reference and takes the default's nested props. */
  lemma OverrideDangles(d: Prop, q: Prop, names: set<string>)
    requires Typed(d) && Typed(q)
    ensures Typed(Override(d, q))
    ensures TopDangles(Override(d, q), names) == TopDangles(q, names)
    ensures NestedDangles(Override(d, q), names) == NestedDangles(d, names)
  {
  }

  lemma LayeredTyped(props: Props, defaults: Props)
    requires AllTyped(props) && AllTyped(defaults)
    ensures AllTyped(Layered(props, defaults))
  {
    forall k | k in Layered(props, defaults) ensures Typed(Layered(props, defaults)[k]) {
      if k in defaults && k in props {
        OverrideDangles(defaults[k], props[k], {});
      }
    }
  }

  /** The prop whose own reference the merged prop at key k carries: a default that replaces or adds brings its own,
      under a configurable one the reference below it stays. */
  function TopSource(own: Props, first: Props, second: Props, k: string): Prop
    requires k in own || k in first || k in second
  {
    if k in second && !(second[k].configurable && (k in own || k in first)) then second[k]
    else if k in first && !(first[k].configurable && k in own) then first[k]
    else own[k]
  }

  /** The prop whose nested props it carries: those of the last layer that has the key. */
  function NestedSource(own: Props, first: Props, second: Props, k: string): Prop
    requires k in own || k in first || k in second
  {
    if k in second then second[k] else if k in first then first[k] else own[k]
  }

  predicate LeadsOut(own: Props, first: Props, second: Props, k: string, names: set<string>)
    requires k in own || k in first || k in second
  {
    TopDangles(TopSource(own, first, second, k), names) || NestedDangles(NestedSource(own, first, second, k), names)
  }

  /** For any set of names: a merged prop refers outside it if and only if the input prop that lends the reference
      does. */
  lemma LeadsOutExactly(own: Props, first: Props, second: Props, k: string, names: set<string>)
    requires AllTyped(own) && AllTyped(first) && AllTyped(second)
    requires k in own || k in first || k in second
    ensures Dangles(Layered(Layered(own, first), second)[k], names) <==> LeadsOut(own, first, second, k, names)
  {
    LayeredTyped(own, first);
    var once := Layered(own, first);
    if k in first && k in own {
      OverrideDangles(first[k], own[k], names);
    }
    if k in second && k in once {
      OverrideDangles(second[k], once[k], names);
    }
  }

  /** The layers a store gets; a default store gets none. */
  function FirstLayer(s: Store, stores: map<string, Store>): Props {
    if IsDefault(s.name) then map[] else PropsOf(stores, DEFAULT_DIRECTORY)
  }

  function SecondLayer(s: Store, stores: map<string, Store>): Props {
    if IsDefault(s.name) then map[] else SecondProps(s.kind, stores)
  }

  lemma OutputLayers(conf: map<string, Store>, name: string)
    requires name in Compiled(conf)
    ensures var stores := Survivors(conf);
      var s := stores[name];
      && AllTyped(s.props) && AllTyped(FirstLayer(s, stores)) && AllTyped(SecondLayer(s, stores))
      && Compiled(conf)[name].props == Layered(Layered(s.props, FirstLayer(s, stores)), SecondLayer(s, stores))
  {
    var stores := Survivors(conf);
    var s := stores[name];
    SurvivorsTyped(conf, name);
    DefaultTyped(conf, DEFAULT_DIRECTORY);
    DefaultTyped(conf, if TypeDefault(s.kind).Some? then TypeDefault(s.kind).value else "");
    LayeredNothing(s.props);
  }

  /** For any set of names: an output store's references all stay inside it if and only if no key of the store or of
      a layer leads out. */
  lemma OutputRefsExactly(conf: map<string, Store>, name: string, names: set<string>)
    requires name in Compiled(conf)
    ensures var stores := Survivors(conf);
      var s := stores[name];
      var first, second := FirstLayer(s, stores), SecondLayer(s, stores);
      RefsOk(Compiled(conf)[name].props, names)
      <==> forall k :: k in s.props || k in first || k in second ==> !LeadsOut(s.props, first, second, k, names)
  {
    var stores := Survivors(conf);
    var s := stores[name];
    var first, second := FirstLayer(s, stores), SecondLayer(s, stores);
    OutputLayers(conf, name);
    var done := Layered(Layered(s.props, first), second);
    forall k | k in done ensures Dangles(done[k], names) <==> LeadsOut(s.props, first, second, k, names) {
      LeadsOutExactly(s.props, first, second, k, names);
    }
  }

  /** Exactly when the references of an output store all name stores that passed validation:
      if and only if no default that was layered over it lends one that does not. */
  lemma OutputSoundExactlyWithoutLeaks(conf: map<string, Store>, name: string)
    requires name in Compiled(conf)
    ensures var stores := Survivors(conf);
      var s := stores[name];
      var first, second := FirstLayer(s, stores), SecondLayer(s, stores);
      RefsOk(Compiled(conf)[name].props, stores.Keys)
      <==> forall k :: k in first || k in second ==> !LeadsOut(s.props, first, second, k, stores.Keys)
  {
    var stores := Survivors(conf);
    var s := stores[name];
    var first, second := FirstLayer(s, stores), SecondLayer(s, stores);
    OutputRefsExactly(conf, name, stores.Keys);
    forall k | k in s.props && k !in first && k !in second ensures !LeadsOut(s.props, first, second, k, stores.Keys) {
      assert !Dangles(s.props[k], stores.Keys);
    }
  }

  /** The validated stores that pass the reference check. */
  function Resolved(stores: map<string, Store>): set<string> {
    set n | n in stores && RefsOk(stores[n].props, stores.Keys)
  }

  /** Exactly when the references of an output store all name output stores: if and only if no key of the store or of
      a layer over it lends a reference to a store that is missing, invalid or dropped by the reference check. */
  lemma OutputClosedExactly(conf: map<string, Store>, name: string)
    requires name in Compiled(conf)
    ensures var stores := Survivors(conf);
      var s := stores[name];
      var first, second := FirstLayer(s, stores), SecondLayer(s, stores);
      && Compiled(conf).Keys == Resolved(stores)
      && (RefsOk(Compiled(conf)[name].props, Compiled(conf).Keys)
          <==> forall k :: k in s.props || k in first || k in second
                 ==> !LeadsOut(s.props, first, second, k, Resolved(stores)))
  {
    OutputRefsExactly(conf, name, Resolved(Survivors(conf)));
  }

  lemma SoundDefaultsNeverLeak(own: Props, first: Props, second: Props, k: string, names: set<string>)
    requires RefsOk(own, names) && RefsOk(first, names) && RefsOk(second, names)
    requires k in own || k in first || k in second
    ensures !LeadsOut(own, first, second, k, names)
  {
  }

  predicate DefaultsSound(stores: map<string, Store>) {
    forall d :: d in stores && IsDefault(d) ==> RefsOk(stores[d].props, stores.Keys)
  }

  lemma DefaultSound(stores: map<string, Store>, d: string)
    requires DefaultsSound(stores) && IsDefault(d)
    ensures RefsOk(PropsOf(stores, d), stores.Keys)
  {
  }

  lemma OutputSound(conf: map<string, Store>, name: string)
    requires DefaultsSound(Survivors(conf)) && name in Compiled(conf)
    ensures RefsOk(Compiled(conf)[name].props, Survivors(conf).Keys)
  {
    var stores := Survivors(conf);
    var s := stores[name];
    SurvivorsTyped(conf, name);
    OutputSoundExactlyWithoutLeaks(conf, name);
    DefaultSound(stores, DEFAULT_DIRECTORY);
    if TypeDefault(s.kind).Some? {
      DefaultSound(stores, TypeDefault(s.kind).value);
    }
    var first, second := FirstLayer(s, stores), SecondLayer(s, stores);
    forall k | k in first || k in second ensures !LeadsOut(s.props, first, second, k, stores.Keys) {
      SoundDefaultsNeverLeak(s.props, first, second, k, stores.Keys);
    }
  }

  /** If every default store that passed validation passes the reference check, every ref, refList and virtualRefList of
      every output store, top level or nested, names a store that passed validation. */
  lemma ReferencesSurviveMerging(conf: map<string, Store>)
    requires forall d :: d in Survivors(conf) && IsDefault(d) ==>
               AllNameOneOf(Survivors(conf)[d].props, Survivors(conf).Keys)
    ensures forall name :: name in Compiled(conf) ==> AllNameOneOf(Compiled(conf)[name].props, Survivors(conf).Keys)
  {
    forall d | d in Survivors(conf) && IsDefault(d) ensures RefsOk(Survivors(conf)[d].props, Survivors(conf).Keys) {
      ReferencesSpelledOut(Survivors(conf)[d].props, Survivors(conf).Keys);
    }
    forall name | name in Compiled(conf)
      ensures AllNameOneOf(Compiled(conf)[name].props, Survivors(conf).Keys)
    {
      OutputSound(conf, name);
      ReferencesSpelledOut(Compiled(conf)[name].props, Survivors(conf).Keys);
    }
  }

  // ---- The two ways a reference of the output can lead nowhere ----

  function Plain(name: string, props: Props): Store {
    Store(name, Directory, props, map[], [], [], "")
  }

  function RefTo(name: string, store: string): Prop {
    BLANK.(name := name, kind := RefKind, store := store, pattern := Text(""), mask := Text(""))
  }

  lemma RefPasses(name: string, store: string, o: Store)
    requires store != "" && o == Plain(o.name, map[name := RefTo(name, store)])
    ensures FirstPass(o.name, o) == Some(o)
  {
    var p := RefTo(name, store);
    assert FlatShape(name, p);
    FlatFixpoint(name, p);
    assert CheckProp(name, p) == Some(p);
    assert AllValid(o.props, true) && Normalised(o.props, true) == o.props;
  }

  /** A `_default` store with a reference to a store that does not exist, beside an empty store. */
  function Leaky(): map<string, Store> {
    map[DEFAULT_DIRECTORY := Plain(DEFAULT_DIRECTORY, map["r" := RefTo("r", "gone")]), "a" := Plain("a", map[])]
  }

  lemma LeakySurvives()
    ensures Survivors(Leaky()) == Leaky()
  {
    RefPasses("r", "gone", Leaky()[DEFAULT_DIRECTORY]);
    assert Normalised(map[], true) == map[];
  }

  /** A `_default` store with a reference to a missing store is dropped from the output, but first lends
      the reference to the others. */
  lemma UnsoundDefaultLeaks()
    ensures var out := Compiled(Leaky());
      DEFAULT_DIRECTORY !in out && "a" in out && !RefsOk(out["a"].props, Survivors(Leaky()).Keys)
  {
    LeakySurvives();
    var stores := Survivors(Leaky());
    var first := PropsOf(stores, DEFAULT_DIRECTORY);
    assert TopDangles(first["r"], stores.Keys);
    assert Dangles(first["r"], stores.Keys);
    assert stores["a"].props == map[] && RefsOk(map[], stores.Keys);
    OutputSoundExactlyWithoutLeaks(Leaky(), "a");
    assert LeadsOut(map[], first, map[], "r", stores.Keys);
  }

  /** "a" refers to "b", and "b" to a store that does not exist. */
  function Chain(): map<string, Store> {
    map["a" := Plain("a", map["r" := RefTo("r", "b")]), "b" := Plain("b", map["r" := RefTo("r", "gone")])]
  }

  lemma ChainSurvives()
    ensures Survivors(Chain()) == Chain()
  {
    RefPasses("r", "b", Chain()["a"]);
    RefPasses("r", "gone", Chain()["b"]);
  }

  lemma ChainChecked()
    ensures RefsOk(Chain()["a"].props, Chain().Keys) && !RefsOk(Chain()["b"].props, Chain().Keys)
  {
    assert "gone" !in Chain().Keys;
    assert Dangles(Chain()["b"].props["r"], Chain().Keys);
    assert "b" in Chain().Keys;
  }

  /** References are checked once, against the stores that passed validation: a store may keep a reference
      to one that the same check drops. */
  lemma ReferenceToDroppedStoreStays()
    ensures var out := Compiled(Chain());
      "a" in out && "r" in out["a"].props && IsRef(out["a"].props["r"]) && out["a"].props["r"].store !in out
  {
    ChainSurvives();
    ChainChecked();
    var stores := Survivors(Chain());
    assert stores["a"].props == map["r" := RefTo("r", "b")];
    LeftAlone(stores["a"], stores);
    assert "a" in Compiled(Chain()) && Compiled(Chain())["a"] == Merged(stores["a"], stores);
  }

  lemma LeftAlone(s: Store, stores: map<string, Store>)
    requires s.kind == Directory && DEFAULT_DIRECTORY !in stores
    ensures Merged(s, stores).props == s.props
  {
    assert Layered(s.props, map[]) == s.props;
  }
}
