/** When layering a default over a validated prop leaves a prop that is still in the shape of its type. */
module ConfigShape {
  import opened Wrappers
  import opened ConfigModel
  import opened ConfigProps
  import opened ConfigDefaults
  import opened ConfigCompile

  // ---- What a default lends ----

  predicate LendsLengths(d: Prop) { d.minLength != 0 || d.maxLength != 0 }

  predicate LendsNumbers(d: Prop) { d.min != Nil || d.max != Nil }

  predicate LendsRefs(d: Prop) { d.store != "" || d.oppositeProp != "" || d.extraQuery != Nil || d.query != Nil }

  function Or(a: Value, b: Value): Value { if a != Nil then a else b }

  function OrInt(a: int, b: int): int { if a != 0 then a else b }

  /** The bounds of the store's prop, completed from the default, still make an interval. */
  predicate BoundsFit(d: Prop, q: Prop) { MinMaxOk(BLANK.(min := Or(q.min, d.min), max := Or(q.max, d.max))) }

  predicate LengthsFit(d: Prop, q: Prop) {
    LengthsOk(BLANK.(minLength := OrInt(q.minLength, d.minLength), maxLength := OrInt(q.maxLength, d.maxLength)))
  }

  predicate DefaultFits(d: Prop, q: Prop) { q.default_ != Nil || DefaultOk(q.kind, d.default_) }

  /** The default lends the prop nothing its type does not use, and what it lends goes with what the prop has. */
  predicate FitsFlat(d: Prop, q: Prop) {
    match q.kind
    case IntKind | FloatKind =>
      !LendsLengths(d) && !LendsRefs(d) && d.props == map[] && DefaultFits(d, q) && BoundsFit(d, q)
    case BoolKind =>
      !LendsLengths(d) && !LendsRefs(d) && !LendsNumbers(d) && d.props == map[] && DefaultFits(d, q)
    case StringKind | UuidKind =>
      !LendsNumbers(d) && !LendsRefs(d) && d.props == map[] && DefaultFits(d, q) && LengthsFit(d, q)
    case DateKind | DateOnlyKind =>
      !LendsLengths(d) && !LendsRefs(d) && d.props == map[] && DefaultFits(d, q)
    case RefKind | RefListKind => !LendsLengths(d) && !LendsNumbers(d) && DefaultFits(d, q)
    case VirtualKind =>
      !LendsLengths(d) && !LendsRefs(d) && !LendsNumbers(d) && d.props == map[] && d.default_ == Nil
    case VirtualRefListKind =>
      !LendsLengths(d) && !LendsNumbers(d) && d.props == map[] && d.default_ == Nil
      && (d.foreignKey != "" || d.query != Nil)
    case CommentsKind => !LendsLengths(d) && !LendsNumbers(d)
    case _ => true
  }

  predicate Fits(name: string, d: Prop, q: Prop) {
    Skipped(q.kind)
    || (d.name == name
        && if IsObject(q.kind) then
             && !LendsRefs(d) && !LendsNumbers(d) && (q.kind.ObjectKind? ==> !LendsLengths(d))
             && (forall k :: k in d.props ==> FlatShape(k, d.props[k]))
           else FitsFlat(d, q))
  }

  // ---- The exact condition, type by type ----

  lemma NumberFits(name: string, d: Prop, q: Prop)
    requires FlatShape(name, q) && (q.kind.IntKind? || q.kind.FloatKind?)
    ensures FlatShape(name, Override(d, q)) <==> d.name == name && FitsFlat(d, q)
  {
    var r := Override(d, q);
    assert MinMaxOk(r) == BoundsFit(d, q);
  }

  lemma TextFits(name: string, d: Prop, q: Prop)
    requires FlatShape(name, q) && (q.kind.StringKind? || q.kind.UuidKind?)
    ensures FlatShape(name, Override(d, q)) <==> d.name == name && FitsFlat(d, q)
  {
    var r := Override(d, q);
    assert LengthsOk(r) == LengthsFit(d, q);
  }

  lemma PlainFits(name: string, d: Prop, q: Prop)
    requires FlatShape(name, q) && (q.kind.BoolKind? || q.kind.DateKind? || q.kind.DateOnlyKind? || q.kind.VirtualKind?)
    ensures FlatShape(name, Override(d, q)) <==> d.name == name && FitsFlat(d, q)
  {
  }

  lemma LinkFits(name: string, d: Prop, q: Prop)
    requires FlatShape(name, q) && (IsRef(q) || q.kind.CommentsKind?)
    ensures FlatShape(name, Override(d, q)) <==> d.name == name && FitsFlat(d, q)
  {
  }

  lemma ObjectFits(name: string, d: Prop, q: Prop)
    requires Shape(name, q) && IsObject(q.kind)
    ensures Shape(name, Override(d, q)) <==> Fits(name, d, q)
  {
    var r := Override(d, q);
    assert r.kind == q.kind && r.props == d.props;
  }

  lemma KindKept(d: Prop, q: Prop)
    requires !q.kind.Untyped?
    ensures Override(d, q).kind == q.kind
  {
  }

  /** For a prop in shape under a configurable default: the merged prop is in shape, so that validation would accept it
      and change nothing, if and only if the default fits. */
  lemma OverrideShapeExactly(name: string, d: Prop, q: Prop)
    requires Shape(name, q)
    ensures Shape(name, Override(d, q)) <==> Fits(name, d, q)
    ensures CheckProp(name, Override(d, q)) == Some(Override(d, q)) <==> Fits(name, d, q)
  {
    KindKept(d, q);
    ShapeIsFixpoint(name, Override(d, q));
    if IsObject(q.kind) {
      ObjectFits(name, d, q);
    } else if q.kind.IntKind? || q.kind.FloatKind? {
      NumberFits(name, d, q);
    } else if q.kind.StringKind? || q.kind.UuidKind? {
      TextFits(name, d, q);
    } else if IsRef(q) || q.kind.CommentsKind? {
      LinkFits(name, d, q);
    } else if !Skipped(q.kind) {
      PlainFits(name, d, q);
    }
  }

  // ---- Whole layers and output stores ----

  predicate AllShaped(props: Props) { forall k :: k in props ==> Shape(k, props[k]) }

  predicate AllFit(props: Props, defaults: Props) {
    forall k :: k in defaults && k in props && defaults[k].configurable ==> Fits(k, defaults[k], props[k])
  }

  lemma LayerShapesExactly(props: Props, defaults: Props)
    requires AllShaped(props) && AllShaped(defaults)
    ensures AllShaped(Layered(props, defaults)) <==> AllFit(props, defaults)
  {
    var done := Layered(props, defaults);
    forall k | k in done
      ensures Shape(k, done[k])
          <==> (k in defaults && k in props && defaults[k].configurable ==> Fits(k, defaults[k], props[k]))
    {
      if k in defaults && k in props && defaults[k].configurable {
        OverrideShapeExactly(k, defaults[k], props[k]);
      }
    }
  }

  lemma SurvivorShaped(conf: map<string, Store>, name: string)
    ensures AllShaped(PropsOf(Survivors(conf), name))
  {
    if name in Survivors(conf) {
      NormalisedIsNormal(StartingProps(conf[name].kind, conf[name].props));
    }
  }

  /** Overriding twice is overriding with the overridden default. */
  lemma OverrideAssociates(q: Prop, d1: Prop, d2: Prop)
    ensures Override(d2, Override(d1, q)) == Override(Override(d2, d1), q)
  {
  }

  /** The condition at one key, on the inputs: whatever configurable defaults come to lie over a prop, together, fit it.
      A default that replaces or adds brings a prop that is in shape. */
  predicate FitsAt(own: Props, first: Props, second: Props, k: string) {
    if k in second && second[k].configurable then
      if k in own && k in first && first[k].configurable then Fits(k, Override(second[k], first[k]), own[k])
      else if k in first then Fits(k, second[k], first[k])
      else k in own ==> Fits(k, second[k], own[k])
    else
      k !in second && k in own && k in first && first[k].configurable ==> Fits(k, first[k], own[k])
  }

  lemma TwoLayerShapeExactly(own: Props, first: Props, second: Props, k: string)
    requires AllShaped(own) && AllShaped(first) && AllShaped(second)
    requires k in own || k in first || k in second
    ensures Shape(k, Layered(Layered(own, first), second)[k]) <==> FitsAt(own, first, second, k)
  {
    var once := Layered(own, first);
    if k in second && second[k].configurable && k in once {
      if k in own && k in first && first[k].configurable {
        OverrideAssociates(own[k], first[k], second[k]);
        OverrideShapeExactly(k, Override(second[k], first[k]), own[k]);
      } else {
        OverrideShapeExactly(k, second[k], once[k]);
      }
    } else if k !in second && k in own && k in first && first[k].configurable {
      OverrideShapeExactly(k, first[k], own[k]);
    }
  }

  lemma TwoLayerShapesExactly(own: Props, first: Props, second: Props)
    requires AllShaped(own) && AllShaped(first) && AllShaped(second)
    ensures AllShaped(Layered(Layered(own, first), second))
        <==> forall k :: k in own || k in first || k in second ==> FitsAt(own, first, second, k)
  {
    var done := Layered(Layered(own, first), second);
    forall k | k in own || k in first || k in second
      ensures k in done && (Shape(k, done[k]) <==> FitsAt(own, first, second, k))
    {
      TwoLayerShapeExactly(own, first, second, k);
    }
  }

  lemma LayersShaped(conf: map<string, Store>, name: string)
    requires name in Survivors(conf)
    ensures var stores := Survivors(conf);
      var s := stores[name];
      AllShaped(s.props) && AllShaped(FirstLayer(s, stores)) && AllShaped(SecondLayer(s, stores))
  {
    var s := Survivors(conf)[name];
    SurvivorShaped(conf, name);
    SurvivorShaped(conf, DEFAULT_DIRECTORY);
    SurvivorShaped(conf, if TypeDefault(s.kind).Some? then TypeDefault(s.kind).value else "");
  }

  /** The exact condition for an output store, on the validated stores: all its props are in shape, so that validation
      would accept them and change nothing, if and only if at every key the defaults fit. */
  lemma OutputShapesExactly(conf: map<string, Store>, name: string)
    requires name in Compiled(conf)
    ensures var stores := Survivors(conf);
      var s := stores[name];
      var first, second := FirstLayer(s, stores), SecondLayer(s, stores);
      AllShaped(Compiled(conf)[name].props)
      <==> forall k :: k in s.props || k in first || k in second ==> FitsAt(s.props, first, second, k)
  {
    var stores := Survivors(conf);
    var s := stores[name];
    OutputLayers(conf, name);
    LayersShaped(conf, name);
    TwoLayerShapesExactly(s.props, FirstLayer(s, stores), SecondLayer(s, stores));
  }

  /** The first layer can break the shape and the second restore it. */
  lemma SecondLayerRepairs(name: string)
    ensures var q := Bounded(name, Nil, Number(2.0));
      var d1 := Bounded(name, Number(3.0), Number(9.0));
      var d2 := Bounded(name, Nil, Nil).(configurable := false);
      && !AllShaped(Layered(map[name := q], map[name := d1]))
      && AllShaped(Layered(Layered(map[name := q], map[name := d1]), map[name := d2]))
  {
    var q := Bounded(name, Nil, Number(2.0));
    var d1 := Bounded(name, Number(3.0), Number(9.0));
    BoundsCross(name);
    ShapeIsFixpoint(name, Override(d1, q));
    assert Layered(map[name := q], map[name := d1])[name] == Override(d1, q);
  }

  /** A maximum of 2 in the store under a default of 3 to 9: both pass validation, the merged prop does not. */
  lemma BoundsCross(name: string)
    ensures var q := Bounded(name, Nil, Number(2.0));
      var d := Bounded(name, Number(3.0), Number(9.0));
      Shape(name, q) && Shape(name, d) && d.configurable && CheckProp(name, Override(d, q)) == None
  {
  }

  function Bounded(name: string, min: Value, max: Value): Prop {
    BLANK.(name := name, kind := IntKind, pattern := Text(""), mask := Text(""), min := min, max := max,
           configurable := true)
  }
}
