/** What a compiled configuration holds, in terms of the configuration that was read: which stores are kept, of what
    type, with which props, filters, access rules and references. */
module ConfigOutput {
  import opened Wrappers
  import opened ConfigModel
  import opened ConfigProps
  import opened ConfigDefaults
  import opened ConfigRules
  import opened ConfigCompile
  import opened Migrations

  // ---- Validated stores ----

  /** Maps and workspaces have no props to check, and the `_id` of a single store is not the one that was read. */
  predicate PropsKeepRules(o: Store) {
    || o.kind == MapStore || o.kind == Workspace
    || forall k :: k in o.props && !(o.kind == Single && k == "_id") ==> TopRule(o.props[k])
  }

  /** The `_id` prop every single store gets. */
  const SINGLE_ID := Prop("_id", StringKind, Nil, 0, 0, Nil, Nil, Nil, Nil, "", "", Nil, Nil, "", map[], false,
                          "", "", 0, None, "none", false, Nil, Nil, "", Nil, "", "", Nil, [], "")

  lemma IdAccepted()
    ensures TopRule(BLANK.(kind := StringKind, display := "none"))
    ensures CheckProp("_id", BLANK.(kind := StringKind, display := "none")) == Some(SINGLE_ID)
  {
  }

  /** A store passes the first loop if and only if its props keep the rules. */
  lemma SurvivesExactly(conf: map<string, Store>, name: string)
    ensures name in Survivors(conf) <==> name in conf && PropsKeepRules(conf[name])
  {
    if name in conf {
      TableAcceptedExactly(StartingProps(conf[name].kind, conf[name].props));
      StartingRules(conf[name]);
    }
  }

  lemma StartingRules(o: Store)
    ensures var props := StartingProps(o.kind, o.props);
      (forall k :: k in props ==> TopRule(props[k])) <==> PropsKeepRules(o)
  {
    var props := StartingProps(o.kind, o.props);
    IdAccepted();
    if PropsKeepRules(o) {
      forall k | k in props ensures TopRule(props[k]) {
      }
    } else {
      var k :| k in o.props && !(o.kind == Single && k == "_id") && !TopRule(o.props[k]);
      assert k in props && props[k] == o.props[k];
    }
  }

  /** What the first loop makes of a store: a store of unknown type is a directory, any other keeps its type. */
  ghost predicate IsValidated(name: string, o: Store, s: Store) {
    && s.name == name
    && (if o.kind.OtherStore? then s.kind == Directory else s.kind == o.kind)
    && s.filters == o.filters && s.access == o.access && s.migrations == o.migrations && s.rest == o.rest
    && HasValidatedProps(o, s.props)
  }

  /** Maps and workspaces have no props; a single store has the fixed `_id`; every other prop is stored under its own
      key. */
  ghost predicate HasValidatedProps(o: Store, props: Props) {
    if o.kind == MapStore || o.kind == Workspace then props == map[]
    else
      && (forall k :: k in props <==> k in o.props || (o.kind == Single && k == "_id"))
      && (o.kind == Single ==> props["_id"] == SINGLE_ID)
      && (forall k :: k in o.props && !(o.kind == Single && k == "_id") ==> IsTopStored(k, o.props[k], props[k]))
  }

  lemma SurvivorExactly(conf: map<string, Store>, name: string)
    requires name in Survivors(conf)
    ensures IsValidated(name, conf[name], Survivors(conf)[name])
  {
    StartingStored(conf[name]);
  }

  lemma StartingStored(o: Store)
    requires AllValid(StartingProps(o.kind, o.props), true)
    ensures HasValidatedProps(o, Normalised(StartingProps(o.kind, o.props), true))
  {
    var props := StartingProps(o.kind, o.props);
    if o.kind == Single {
      SingleStored(o);
    } else if o.kind == MapStore || o.kind == Workspace {
      assert Normalised(props, true) == map[];
    } else {
      assert props == o.props;
      TableStoredExactly(props);
    }
  }

  lemma SingleStored(o: Store)
    requires o.kind == Single && AllValid(StartingProps(Single, o.props), true)
    ensures HasValidatedProps(o, Normalised(StartingProps(Single, o.props), true))
  {
    var props := StartingProps(Single, o.props);
    var done := Normalised(props, true);
    TableStoredExactly(props);
    assert props["_id"] == BLANK.(kind := StringKind, display := "none");
    IdAccepted();
    assert done["_id"] == SINGLE_ID;
    forall k | k in o.props && k != "_id" ensures IsTopStored(k, o.props[k], done[k]) {
      assert props[k] == o.props[k];
    }
  }

  // ---- References ----

  /** A store is in the output if and only if it passed the first loop and every ref, refList and virtualRefList of it,
      top level or nested, names a store that did. */
  lemma OutputExactly(conf: map<string, Store>, name: string)
    ensures name in Compiled(conf)
        <==> name in Survivors(conf) && AllNameOneOf(Survivors(conf)[name].props, Survivors(conf).Keys)
  {
    if name in Survivors(conf) {
      ReferencesSpelledOut(Survivors(conf)[name].props, Survivors(conf).Keys);
    }
  }

  // ---- Layers ----

  predicate IsDefaultName(name: string) {
    || name == "_default" || name == "_defaultProcess" || name == "_defaultCampaign"
    || name == "_defaultNotifications" || name == "_defaultSingle"
  }

  function LentProps(stores: map<string, Store>, name: string): Props {
    if name in stores then stores[name].props else map[]
  }

  function LentFilters(stores: map<string, Store>, name: string): Filters {
    if name in stores then stores[name].filters else map[]
  }

  /** The output store has, at every key, what the two layers of props and the two layers of filters make of the
      validated store, and the rest as it was. */
  ghost predicate IsLayered(out: Store, s: Store, firstProps: Props, secondProps: Props, firstFilters: Filters,
                      secondFilters: Filters)
  {
    && out.name == s.name && out.kind == s.kind && out.migrations == s.migrations && out.rest == s.rest
    && (forall k :: IsTwoLayers(out.props, s.props, firstProps, secondProps, k))
    && (forall k :: IsTwoFilterLayers(out.filters, s.filters, firstFilters, secondFilters, k))
  }

  /** What an output store is, by its type. Process and single stores take props and filters of the general default and
      then of their own; a notification store takes the props of its own default, its access rules if it has none
      itself, and never its filters; every other store takes only the general default, and a default store nothing. */
  ghost predicate IsLayeredByType(out: Store, s: Store, stores: map<string, Store>) {
    var props, filters := LentProps(stores, "_default"), LentFilters(stores, "_default");
    if IsDefaultName(s.name) then out == s
    else
      match s.kind
      case Process =>
        && out.access == s.access
        && IsLayered(out, s, props, LentProps(stores, "_defaultProcess"), filters,
                     LentFilters(stores, "_defaultProcess"))
      case Single =>
        && out.access == s.access
        && IsLayered(out, s, props, LentProps(stores, "_defaultSingle"), filters,
                     LentFilters(stores, "_defaultSingle"))
      case Notification =>
        && IsLayered(out, s, props, LentProps(stores, "_defaultNotifications"), filters, map[])
        && (s.access != [] ==> out.access == s.access)
        && (s.access == [] && "_defaultNotifications" in stores ==>
              out.access == stores["_defaultNotifications"].access)
        && (s.access == [] && "_defaultNotifications" !in stores ==> out.access == [])
      case _ => out.access == s.access && IsLayered(out, s, props, map[], filters, map[])
  }

  lemma MergedFields(s: Store, stores: map<string, Store>)
    requires !IsDefault(s.name)
    ensures var out := Merged(s, stores);
      IsLayered(out, s, PropsOf(stores, DEFAULT_DIRECTORY), SecondProps(s.kind, stores),
                FiltersOf(stores, DEFAULT_DIRECTORY), SecondFilters(s.kind, stores))
  {
    var props, filters := PropsOf(stores, DEFAULT_DIRECTORY), FiltersOf(stores, DEFAULT_DIRECTORY);
    var out := Merged(s, stores);
    forall k
      ensures IsTwoLayers(out.props, s.props, props, SecondProps(s.kind, stores), k)
      ensures IsTwoFilterLayers(out.filters, s.filters, filters, SecondFilters(s.kind, stores), k)
    {
      TwoLayers(s.props, props, SecondProps(s.kind, stores), k);
      TwoFilterLayers(s.filters, filters, SecondFilters(s.kind, stores), k);
    }
  }

  lemma MergedByType(s: Store, stores: map<string, Store>)
    ensures IsLayeredByType(Merged(s, stores), s, stores)
  {
    if !IsDefaultName(s.name) {
      MergedFields(s, stores);
      assert PropsOf(stores, DEFAULT_DIRECTORY) == LentProps(stores, "_default");
      assert FiltersOf(stores, DEFAULT_DIRECTORY) == LentFilters(stores, "_default");
    }
  }

  /** Every output store, by its type. */
  lemma OutputByType(conf: map<string, Store>, name: string)
    requires name in Compiled(conf)
    ensures IsValidated(name, conf[name], Survivors(conf)[name])
    ensures IsLayeredByType(Compiled(conf)[name], Survivors(conf)[name], Survivors(conf))
  {
    SurvivorExactly(conf, name);
    MergedByType(Survivors(conf)[name], Survivors(conf));
  }

  /** A store of unknown type is output as a directory, with the layer of `_default` and no other. */
  lemma UntypedStoreIsDirectory(conf: map<string, Store>, name: string)
    requires name in Compiled(conf) && conf[name].kind.OtherStore? && !IsDefaultName(name)
    ensures var out, stores := Compiled(conf)[name], Survivors(conf);
      && out.kind == Directory && out.access == conf[name].access
      && IsLayered(out, stores[name], LentProps(stores, "_default"), map[], LentFilters(stores, "_default"), map[])
      && forall k :: k in out.props <==> k in conf[name].props || k in LentProps(stores, "_default")
  {
    OutputByType(conf, name);
    KeysOfLayers(Compiled(conf)[name], Survivors(conf)[name], LentProps(Survivors(conf), "_default"), map[],
                 LentFilters(Survivors(conf), "_default"), map[]);
  }

  lemma KeysOfLayers(out: Store, s: Store, firstProps: Props, secondProps: Props, firstFilters: Filters,
                     secondFilters: Filters)
    requires IsLayered(out, s, firstProps, secondProps, firstFilters, secondFilters)
    ensures forall k :: k in out.props <==> k in s.props || k in firstProps || k in secondProps
    ensures forall k :: k in out.filters <==> k in s.filters || k in firstFilters || k in secondFilters
  {
    forall k ensures k in out.props <==> k in s.props || k in firstProps || k in secondProps {
      assert IsTwoLayers(out.props, s.props, firstProps, secondProps, k);
    }
    forall k ensures k in out.filters <==> k in s.filters || k in firstFilters || k in secondFilters {
      assert IsTwoFilterLayers(out.filters, s.filters, firstFilters, secondFilters, k);
    }
  }

  /** A map or a workspace has no props of its own: it is output with those of `_default`, as they are. */
  lemma MapsTakeDefaultProps(conf: map<string, Store>, name: string)
    requires name in Compiled(conf) && !IsDefaultName(name)
    requires conf[name].kind == MapStore || conf[name].kind == Workspace
    ensures Compiled(conf)[name].props == LentProps(Survivors(conf), "_default")
  {
    OutputByType(conf, name);
    OneLayerOnNothing(Compiled(conf)[name].props, LentProps(Survivors(conf), "_default"));
  }

  lemma OneLayerOnNothing(r: Props, first: Props)
    requires forall k :: IsTwoLayers(r, map[], first, map[], k)
    ensures r == first
  {
    forall k ensures k in r <==> k in first {
      assert IsTwoLayers(r, map[], first, map[], k);
    }
    forall k | k in first ensures r[k] == first[k] {
      assert IsTwoLayers(r, map[], first, map[], k);
    }
  }

  // ---- Migrations of an output store ----

  /** An output store is the compiled one in everything but its migrations; these have strictly increasing versions and
      no empty script, come from the store's own, and keep each of them whose version is its own, whose script is not
      empty and whose version is not -99. */
  lemma OutputMigrations(out: Store, compiled: Store)
    requires IsOutput(out, compiled)
    ensures out.name == compiled.name && out.kind == compiled.kind && out.props == compiled.props
    ensures out.filters == compiled.filters && out.access == compiled.access && out.rest == compiled.rest
    ensures forall i, j :: 0 <= i < j < |out.migrations| ==> out.migrations[i].version < out.migrations[j].version
    ensures forall m :: m in out.migrations ==> m.script != "" && m in compiled.migrations
    ensures forall i :: 0 <= i < |compiled.migrations|
              && compiled.migrations[i].script != "" && compiled.migrations[i].version != -99
              && (forall j :: 0 <= j < |compiled.migrations| && j != i
                    ==> compiled.migrations[j].version != compiled.migrations[i].version)
              ==> compiled.migrations[i] in out.migrations
  {
    var sorted :| SortedFrom(sorted, compiled.migrations) && out.migrations == Pruned(sorted);
    PrunedResult(compiled.migrations, sorted);
    forall m | m in out.migrations ensures m in compiled.migrations {
      assert m in multiset(Pruned(sorted)) && m in multiset(compiled.migrations);
    }
    forall i | 0 <= i < |compiled.migrations|
        && compiled.migrations[i].script != "" && compiled.migrations[i].version != -99
        && (forall j :: 0 <= j < |compiled.migrations| && j != i
              ==> compiled.migrations[j].version != compiled.migrations[i].version)
      ensures compiled.migrations[i] in out.migrations
    {
      assert Unproblematic(compiled.migrations, i);
    }
  }
}
