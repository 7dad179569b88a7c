/** Layering a default store's props and filters over a store. */
module ConfigDefaults {
  import opened Wrappers
  import opened ConfigModel

  // ---- Props ----

  /** A configurable default `d` under the store's own prop `q`: each setting the store has set wins.
      `readOnly` and `required` always come from the store. A disabled setting of nil counts as set, since only the
      empty text reads as unset. What the merge does not name (nested props, query, foreign key) is the default's. */
  function Override(d: Prop, q: Prop): Prop {
    d.(kind := if !q.kind.Untyped? then q.kind else d.kind,
       formGroup := if q.formGroup != "" then q.formGroup else d.formGroup,
       formTab := if q.formTab != "" then q.formTab else d.formTab,
       formOrder := if q.formOrder != 0 then q.formOrder else d.formOrder,
       access := if q.access.Some? then q.access else d.access,
       display := if q.display != "" then q.display else d.display,
       readOnly := q.readOnly,
       required := q.required,
       default_ := if q.default_ != Nil then q.default_ else d.default_,
       minLength := if q.minLength != 0 then q.minLength else d.minLength,
       maxLength := if q.maxLength != 0 then q.maxLength else d.maxLength,
       min := if q.min != Nil then q.min else d.min,
       max := if q.max != Nil then q.max else d.max,
       hidden := if q.hidden != Nil then q.hidden else d.hidden,
       pattern := if q.pattern != Nil then q.pattern else d.pattern,
       mask := if q.mask != Nil then q.mask else d.mask,
       load := if q.load != "" then q.load else d.load,
       store := if q.store != "" then q.store else d.store,
       populateIn := if q.populateIn != Nil then q.populateIn else d.populateIn,
       caption := if q.caption != "" then q.caption else d.caption,
       placeholder := if q.placeholder != "" then q.placeholder else d.placeholder,
       disabled := if q.disabled != Text("") then q.disabled else d.disabled,
       searchBy := if |q.searchBy| != 0 then q.searchBy else d.searchBy,
       oppositeProp := if q.oppositeProp != "" then q.oppositeProp else d.oppositeProp)
  }

  /** One key of the merge. */
  function LoadedProp(props: Props, name: string, d: Prop): Prop {
    if !d.configurable || name !in props then d else Override(d, props[name])
  }

  /** One layer, key by key. */
  function Layered(props: Props, defaults: Props): Props {
    map k | k in props.Keys + defaults.Keys ::
      if k in defaults then LoadedProp(props, k, defaults[k]) else props[k]
  }

  method LoadDefaultIntoProp(table: PropTable, name: string, p: Prop)
    modifies table`props
    ensures table.props == old(table.props)[name := LoadedProp(old(table.props), name, p)]
  {
    if !p.configurable {
      table.props := table.props[name := p];
      return;
    }
    if name !in table.props {
      table.props := table.props[name := p];
      return;
    }
    table.props := table.props[name := Override(p, table.props[name])];
  }

  /** One more default on a part of the layer. */
  lemma LayerOneMore(props: Props, part: Props, name: string, d: Prop)
    requires name !in part
    ensures Layered(props, part[name := d])
         == Layered(props, part)[name := LoadedProp(Layered(props, part), name, d)]
  {
  }

  lemma LayeredNothing(props: Props)
    ensures Layered(props, map[]) == props
  {
  }

  /** The loop over a default store's props, in any order; the defaults are only read. */
  method LoadDefaults(table: PropTable, defaults: PropTable)
    requires table != defaults
    modifies table`props
    ensures table.props == Layered(old(table.props), defaults.props)
  {
    ghost var start := table.props;
    ghost var part: Props := map[];
    LayeredNothing(start);
    var todo := defaults.props.Keys;
    while todo != {}
      invariant todo <= defaults.props.Keys && part == defaults.props - todo
      invariant table.props == Layered(start, part)
      decreases todo
    {
      var name :| name in todo;
      todo := todo - {name};
      LayerOneMore(start, part, name, defaults.props[name]);
      part := part[name := defaults.props[name]];
      LoadDefaultIntoProp(table, name, defaults.props[name]);
    }
    assert part == defaults.props;
  }

  /** Applying the same layer again changes nothing. */
  lemma LayerTwice(props: Props, defaults: Props)
    ensures Layered(Layered(props, defaults), defaults) == Layered(props, defaults)
  {
    var once := Layered(props, defaults);
    forall k | k in defaults ensures LoadedProp(once, k, defaults[k]) == once[k] {
      OverrideTwice(defaults[k], once[k], if k in props then props[k] else defaults[k]);
    }
  }

  lemma OverrideTwice(d: Prop, once: Prop, q: Prop)
    ensures once == d || once == Override(d, q) ==> Override(d, once) == once
  {
  }

  function FirstText(a: string, b: string, c: string): string { if a != "" then a else if b != "" then b else c }

  function FirstValue(a: Value, b: Value, c: Value, unset: Value): Value {
    if a != unset then a else if b != unset then b else c
  }

  function FirstInt(a: int, b: int, c: int): int { if a != 0 then a else if b != 0 then b else c }

  /** A prop of the store under two configurable defaults: each merged setting is the first one set, looking at the
      store, then the first default, then the second; what is not merged is the second default's. */
  predicate TwoLayerFields(r: Prop, q: Prop, d1: Prop, d2: Prop) {
    && r.kind == (if !q.kind.Untyped? then q.kind else if !d1.kind.Untyped? then d1.kind else d2.kind)
    && r.formGroup == FirstText(q.formGroup, d1.formGroup, d2.formGroup)
    && r.formTab == FirstText(q.formTab, d1.formTab, d2.formTab)
    && r.formOrder == FirstInt(q.formOrder, d1.formOrder, d2.formOrder)
    && r.access == (if q.access.Some? then q.access else if d1.access.Some? then d1.access else d2.access)
    && r.display == FirstText(q.display, d1.display, d2.display)
    && r.readOnly == q.readOnly && r.required == q.required
    && r.default_ == FirstValue(q.default_, d1.default_, d2.default_, Nil)
    && r.minLength == FirstInt(q.minLength, d1.minLength, d2.minLength)
    && r.maxLength == FirstInt(q.maxLength, d1.maxLength, d2.maxLength)
    && r.min == FirstValue(q.min, d1.min, d2.min, Nil)
    && r.max == FirstValue(q.max, d1.max, d2.max, Nil)
    && r.hidden == FirstValue(q.hidden, d1.hidden, d2.hidden, Nil)
    && r.pattern == FirstValue(q.pattern, d1.pattern, d2.pattern, Nil)
    && r.mask == FirstValue(q.mask, d1.mask, d2.mask, Nil)
    && r.load == FirstText(q.load, d1.load, d2.load)
    && r.store == FirstText(q.store, d1.store, d2.store)
    && r.populateIn == FirstValue(q.populateIn, d1.populateIn, d2.populateIn, Nil)
    && r.caption == FirstText(q.caption, d1.caption, d2.caption)
    && r.placeholder == FirstText(q.placeholder, d1.placeholder, d2.placeholder)
    && r.disabled == FirstValue(q.disabled, d1.disabled, d2.disabled, Text(""))
    && r.searchBy == (if q.searchBy != [] then q.searchBy else if d1.searchBy != [] then d1.searchBy else d2.searchBy)
    && r.oppositeProp == FirstText(q.oppositeProp, d1.oppositeProp, d2.oppositeProp)
    && r.props == d2.props && r.query == d2.query && r.extraQuery == d2.extraQuery && r.foreignKey == d2.foreignKey
    && r.name == d2.name && r.configurable == d2.configurable && r.rest == d2.rest
  }

  /** What `r` has at one key after a layer of `first` and then one of `second` on `props`. */
  predicate IsTwoLayers(r: Props, props: Props, first: Props, second: Props, k: string) {
    && (k in r <==> k in props || k in first || k in second)
    && (k in second && (!second[k].configurable || (k !in props && k !in first)) ==> r[k] == second[k])
    && (k !in second && k in first && (!first[k].configurable || k !in props) ==> r[k] == first[k])
    && (k !in second && k !in first && k in props ==> r[k] == props[k])
    && (k in second && second[k].configurable && k in first && (!first[k].configurable || k !in props) ==>
          TwoLayerFields(r[k], first[k], first[k], second[k]))
    && (k in second && second[k].configurable && k !in first && k in props ==>
          TwoLayerFields(r[k], props[k], props[k], second[k]))
    && (k in second && second[k].configurable && k in first && first[k].configurable && k in props ==>
          TwoLayerFields(r[k], props[k], first[k], second[k]))
    && (k !in second && k in first && first[k].configurable && k in props ==>
          TwoLayerFields(r[k], props[k], props[k], first[k]))
  }

  /** The exact value of every key after the general and the type-specific layer. */
  lemma TwoLayers(props: Props, first: Props, second: Props, k: string)
    ensures IsTwoLayers(Layered(Layered(props, first), second), props, first, second, k)
  {
    if k in second && second[k].configurable && k in first && first[k].configurable && k in props {
      OverrideFields(props[k], first[k], second[k]);
    }
    if k in second && second[k].configurable && k in first && (!first[k].configurable || k !in props) {
      OverrideOnce(first[k], second[k]);
    }
    if k in second && second[k].configurable && k !in first && k in props {
      OverrideOnce(props[k], second[k]);
    }
    if k !in second && k in first && first[k].configurable && k in props {
      OverrideOnce(props[k], first[k]);
    }
  }

  lemma OverrideFields(q: Prop, d1: Prop, d2: Prop)
    ensures TwoLayerFields(Override(d2, Override(d1, q)), q, d1, d2)
  {
  }

  lemma OverrideOnce(q: Prop, d: Prop)
    ensures TwoLayerFields(Override(d, q), q, q, d)
  {
  }

  // ---- Filters ----

  /** The filter's gaps filled from a default. */
  function Filled(f: Filter, d: Filter): Filter {
    f.(caption := if f.caption == "" then d.caption else f.caption,
       display := if f.display == "" then d.display else f.display,
       placeholder := if f.placeholder == "" then d.placeholder else f.placeholder,
       searchBy := if |f.searchBy| == 0 then d.searchBy else f.searchBy,
       store := if f.store == "" then d.store else f.store,
       filterBy := if f.filterBy == "" then d.filterBy else f.filterBy,
       options := if |f.options| == 0 then d.options else f.options,
       mask := if f.mask == "" then d.mask else f.mask,
       multi := f.multi || d.multi)
  }

  function FiltersMerged(filters: Filters, defaults: Filters): Filters {
    map k | k in filters.Keys + defaults.Keys ::
      if k in defaults then (if k in filters then Filled(filters[k], defaults[k]) else defaults[k]) else filters[k]
  }

  lemma NothingMerged(filters: Filters)
    ensures FiltersMerged(filters, map[]) == filters
  {
  }

  lemma MergeOneMore(filters: Filters, part: Filters, k: string, d: Filter)
    requires k !in part
    ensures var merged := FiltersMerged(filters, part);
      FiltersMerged(filters, part[k := d]) == merged[k := if k in merged then Filled(merged[k], d) else d]
  {
  }

  /** The loop over the defaults, in any order; they are only read. */
  method FillFilters(table: FilterTable, defaults: FilterTable)
    requires table != defaults
    modifies table`filters
    ensures table.filters == FiltersMerged(old(table.filters), defaults.filters)
  {
    ghost var start := table.filters;
    ghost var part: Filters := map[];
    NothingMerged(start);
    var todo := defaults.filters.Keys;
    while todo != {}
      invariant todo <= defaults.filters.Keys && part == defaults.filters - todo
      invariant table.filters == FiltersMerged(start, part)
      decreases todo
    {
      var k :| k in todo;
      todo := todo - {k};
      MergeOneMore(start, part, k, defaults.filters[k]);
      part := part[k := defaults.filters[k]];
      if k !in table.filters {
        table.filters := table.filters[k := defaults.filters[k]];
      } else {
        table.filters := table.filters[k := Filled(table.filters[k], defaults.filters[k])];
      }
    }
    assert part == defaults.filters;
  }

  /** The content of a table that may be missing. */
  ghost function PropsIn(t: PropTable?): Props
    reads t
  {
    if t == null then map[] else t.props
  }

  ghost function FiltersIn(t: FilterTable?): Filters
    reads t
  {
    if t == null then map[] else t.filters
  }

  /** Merges in place, or into a new table when the store has no filters. */
  method MergeFilters(table: FilterTable?, defaults: FilterTable?) returns (merged: FilterTable?)
    requires table != null ==> table != defaults
    modifies {table}`filters
    ensures merged == table || fresh(merged)
    ensures FiltersIn(merged) == FiltersMerged(old(FiltersIn(table)), old(FiltersIn(defaults)))
  {
    NothingMerged(FiltersIn(table));
    if defaults == null || |defaults.filters| == 0 {
      return table;
    }
    if table == null || |table.filters| == 0 {
      merged := new FilterTable(map[]);
    } else {
      merged := table;
    }
    FillFilters(merged, defaults);
  }

  lemma FilledTwice(f: Filter, d: Filter)
    ensures Filled(Filled(f, d), d) == Filled(f, d) && Filled(d, d) == d
  {
  }

  lemma FilledFirstWins(f: Filter, d1: Filter, d2: Filter)
    ensures Filled(Filled(f, d1), d2) == Filled(f, Filled(d1, d2))
  {
  }

  /** Repeating a layer changes nothing. */
  lemma FilterLayerTwice(filters: Filters, defaults: Filters)
    ensures FiltersMerged(FiltersMerged(filters, defaults), defaults) == FiltersMerged(filters, defaults)
  {
    var once := FiltersMerged(filters, defaults);
    forall k | k in defaults ensures Filled(once[k], defaults[k]) == once[k] {
      FilledTwice(if k in filters then filters[k] else defaults[k], defaults[k]);
    }
  }

  /** Two layers fill a filter first layer first: the second only fills what the first left open. */
  lemma FilterLayers(filters: Filters, first: Filters, second: Filters)
    ensures FiltersMerged(FiltersMerged(filters, first), second) == FiltersMerged(filters, FiltersMerged(first, second))
  {
    forall k | k in filters && k in first && k in second
      ensures Filled(Filled(filters[k], first[k]), second[k]) == Filled(filters[k], Filled(first[k], second[k]))
    {
      FilledFirstWins(filters[k], first[k], second[k]);
    }
  }

  /** A filter under two defaults: each setting is the first one set, looking at the filter, then the first default,
      then the second. */
  predicate TwoLayerFilter(r: Filter, f: Filter, d1: Filter, d2: Filter) {
    && r.caption == FirstText(f.caption, d1.caption, d2.caption)
    && r.display == FirstText(f.display, d1.display, d2.display)
    && r.placeholder == FirstText(f.placeholder, d1.placeholder, d2.placeholder)
    && r.searchBy == (if f.searchBy != [] then f.searchBy else if d1.searchBy != [] then d1.searchBy else d2.searchBy)
    && r.store == FirstText(f.store, d1.store, d2.store)
    && r.filterBy == FirstText(f.filterBy, d1.filterBy, d2.filterBy)
    && r.options == (if f.options != [] then f.options else if d1.options != [] then d1.options else d2.options)
    && r.mask == FirstText(f.mask, d1.mask, d2.mask)
    && r.multi == (f.multi || d1.multi || d2.multi)
    && r.rest == f.rest
  }

  /** What `r` has at one key after a layer of `first` and then one of `second` on `filters`. */
  predicate IsTwoFilterLayers(r: Filters, filters: Filters, first: Filters, second: Filters, k: string) {
    && (k in r <==> k in filters || k in first || k in second)
    && (k in filters && k in first && k in second ==> TwoLayerFilter(r[k], filters[k], first[k], second[k]))
    && (k in filters && k in first && k !in second ==> TwoLayerFilter(r[k], filters[k], filters[k], first[k]))
    && (k in filters && k !in first && k in second ==> TwoLayerFilter(r[k], filters[k], filters[k], second[k]))
    && (k !in filters && k in first && k in second ==> TwoLayerFilter(r[k], first[k], first[k], second[k]))
    && (k in filters && k !in first && k !in second ==> r[k] == filters[k])
    && (k !in filters && k in first && k !in second ==> r[k] == first[k])
    && (k !in filters && k !in first && k in second ==> r[k] == second[k])
  }

  /** The exact value of every filter after the two layers. */
  lemma TwoFilterLayers(filters: Filters, first: Filters, second: Filters, k: string)
    ensures IsTwoFilterLayers(FiltersMerged(FiltersMerged(filters, first), second), filters, first, second, k)
  {
    if k in filters && k in first && k in second {
      FilledFields(filters[k], first[k], second[k]);
    }
    if k in filters && k in first {
      FilledFields(filters[k], filters[k], first[k]);
    }
    if k in filters && k in second {
      FilledFields(filters[k], filters[k], second[k]);
    }
    if k in first && k in second {
      FilledFields(first[k], first[k], second[k]);
    }
  }

  lemma FilledFields(f: Filter, d1: Filter, d2: Filter)
    ensures TwoLayerFilter(Filled(Filled(f, d1), d2), f, d1, d2)
    ensures Filled(f, f) == f
  {
  }

  // ---- Access ----

  function AccessMerged(own: seq<string>, defaults: seq<string>): seq<string> {
    if own == [] then defaults else own
  }

  method MergeAccess(own: seq<string>, defaults: seq<string>) returns (access: seq<string>)
    ensures access == AccessMerged(own, defaults)
  {
    access := own;
    if |own| == 0 && |defaults| > 0 {
      for i := 0 to |defaults|
        invariant access == defaults[..i]
      {
        access := access + [defaults[i]];
      }
    }
  }
}
