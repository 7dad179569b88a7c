/** Prop validation: one prop is checked and brought into the shape of its type, a table of props is normalised in
    place in whatever order it is walked. */
module ConfigProps {
  import opened Wrappers
  import opened ConfigModel

  // ---- The groups of settings that a type does not use ----

  function ClearNumberParams(p: Prop): Prop { p.(min := Nil, max := Nil) }

  function ClearObjectParams(p: Prop): Prop { p.(props := map[]) }

  function ClearRefParams(p: Prop): Prop { p.(store := "", oppositeProp := "", extraQuery := Nil, query := Nil) }

  /** Pattern and mask become the empty text, which is not nil. */
  function ClearStringParams(p: Prop): Prop {
    p.(minLength := 0, maxLength := 0, pattern := Text(""), mask := Text(""))
  }

  /** A bound is a number; a missing one reads as zero. Two zeros are no bounds at all. */
  predicate MinMaxOk(p: Prop) {
    && (p.min.Nil? || p.min.Number?) && (p.max.Nil? || p.max.Number?)
    && var min := if p.min.Nil? then 0.0 else p.min.number;
       var max := if p.max.Nil? then 0.0 else p.max.number;
       (min == 0.0 && max == 0.0) || min <= max
  }

  predicate LengthsOk(p: Prop) {
    && 0 <= p.minLength && 0 <= p.maxLength
    && (p.minLength != 0 && p.maxLength != 0 ==> p.minLength <= p.maxLength)
  }

  /** A default is nil, an expression object, or a value of the type's own sort. */
  predicate DefaultOk(kind: Kind, v: Value) {
    match v
    case Nil => true
    case Object(d) => "$expression" in d && d["$expression"] != Nil
    case _ =>
      match kind
      case IntKind | FloatKind => v.Number?
      case BoolKind => v.Flag?
      case StringKind | UuidKind | RefKind => v.Text?
      case DateKind | DateOnlyKind => v.Moment?
      case RefListKind => v.List?
      case _ => true
  }

  /** The checks a type makes on a prop whose unused groups have been cleared. */
  predicate DemandsMet(p: Prop) {
    match p.kind
    case IntKind | FloatKind => DefaultOk(p.kind, p.default_) && MinMaxOk(p)
    case BoolKind | DateKind | DateOnlyKind => DefaultOk(p.kind, p.default_)
    case StringKind | UuidKind => DefaultOk(p.kind, p.default_) && LengthsOk(p)
    case RefKind | RefListKind => DefaultOk(p.kind, p.default_) && p.store != ""
    case VirtualRefListKind => p.store != "" && (p.foreignKey != "" || p.query != Nil)
    case _ => true
  }

  /** Types the validator passes over without writing the prop back. */
  predicate Skipped(kind: Kind) {
    || kind.WidgetKind? || kind.ActionKind? || kind.FileKind? || kind.FileListKind? || kind.PasswordKind?
    || kind.AnyKind? || kind.VirtualClientKind?
  }

  predicate IsObject(kind: Kind) { kind.ObjectKind? || kind.ObjectListKind? }

  /** The clearing each type asks for. */
  function Cleared(p: Prop): Prop {
    match p.kind
    case IntKind | FloatKind | DateKind | DateOnlyKind => ClearObjectParams(ClearRefParams(ClearStringParams(p)))
    case BoolKind => ClearObjectParams(ClearNumberParams(ClearRefParams(ClearStringParams(p))))
    case StringKind | UuidKind => ClearObjectParams(ClearRefParams(ClearNumberParams(p)))
    case RefKind | RefListKind | CommentsKind => ClearNumberParams(ClearStringParams(p))
    case VirtualKind =>
      ClearObjectParams(ClearNumberParams(ClearRefParams(ClearStringParams(p)))).(default_ := Nil)
    case ObjectKind => ClearNumberParams(ClearRefParams(ClearStringParams(p)))
    case ObjectListKind => ClearNumberParams(ClearRefParams(p.(pattern := Text(""), mask := Text(""))))
    case VirtualRefListKind => ClearObjectParams(ClearNumberParams(ClearStringParams(p))).(default_ := Nil)
    case _ => p
  }

  /** The prop under its key, with the type it has when none is given. */
  function Named(name: string, p: Prop): Prop {
    p.(name := name, kind := if p.kind.Untyped? then StringKind else p.kind)
  }

  /** One turn of the walk for a prop that is not an object: the prop to store, or an error. */
  function CheckFlat(name: string, p: Prop): Option<Prop> {
    var named := Named(name, p);
    if Skipped(named.kind) then Some(p)
    else if named.kind.Unknown? || IsObject(named.kind) then None
    else if DemandsMet(Cleared(named)) then Some(Cleared(named))
    else None
  }

  /** An object's own props are flat: objects do not nest further. */
  predicate AllFlat(props: Props) {
    forall k :: k in props ==> CheckFlat(k, props[k]).Some?
  }

  function NormalFlat(props: Props): Props
    requires AllFlat(props)
  {
    map k | k in props :: CheckFlat(k, props[k]).value
  }

  function CheckProp(name: string, p: Prop): Option<Prop> {
    if IsObject(p.kind) then
      if AllFlat(p.props) then Some(Cleared(Named(name, p)).(props := NormalFlat(p.props))) else None
    else CheckFlat(name, p)
  }

  /** The whole table at the level asked for. */
  function Check(name: string, p: Prop, parseObjects: bool): Option<Prop> {
    if parseObjects then CheckProp(name, p) else CheckFlat(name, p)
  }

  predicate AllValid(props: Props, parseObjects: bool) {
    forall k :: k in props ==> Check(k, props[k], parseObjects).Some?
  }

  function Normalised(props: Props, parseObjects: bool): Props
    requires AllValid(props, parseObjects)
  {
    map k | k in props :: Check(k, props[k], parseObjects).value
  }

  // ---- The walk ----

  /** Walks the table in any order, replacing each prop; it stops at the first error. Success, and the table it
      leaves, do not depend on the order. */
  method ValidateProps(table: PropTable, parseObjects: bool) returns (ok: bool)
    modifies table`props
    ensures ok <==> AllValid(old(table.props), parseObjects)
    ensures ok ==> table.props == Normalised(old(table.props), parseObjects)
    ensures table.props.Keys == old(table.props).Keys
    decreases parseObjects
  {
    ghost var start := table.props;
    var todo := table.props.Keys;
    while todo != {}
      invariant todo <= start.Keys == table.props.Keys
      invariant forall k :: k in todo ==> table.props[k] == start[k]
      invariant forall k :: k in start && k !in todo ==>
          Check(k, start[k], parseObjects) == Some(table.props[k])
      decreases todo
    {
      var pName :| pName in todo;
      todo := todo - {pName};
      var prop := table.props[pName];
      if parseObjects && IsObject(prop.kind) {
        var nested := new PropTable(prop.props);
        var nestedOk := ValidateProps(nested, false);
        FlatLevel(prop.props);
        if !nestedOk {
          return false;
        }
        table.props := table.props[pName := Cleared(Named(pName, prop)).(props := nested.props)];
      } else {
        var checked := CheckFlat(pName, prop);
        if checked.None? {
          return false;
        }
        table.props := table.props[pName := checked.value];
      }
    }
    return true;
  }

  lemma FlatLevel(props: Props)
    ensures AllValid(props, false) <==> AllFlat(props)
    ensures AllFlat(props) ==> Normalised(props, false) == NormalFlat(props)
  {
    assert forall k :: k in props ==> Check(k, props[k], false) == CheckFlat(k, props[k]);
  }

  // ---- The normal form ----

  predicate NoStringParams(p: Prop) {
    p.minLength == 0 && p.maxLength == 0 && p.pattern == Text("") && p.mask == Text("")
  }

  predicate NoNumberParams(p: Prop) { p.min == Nil && p.max == Nil }

  predicate NoRefParams(p: Prop) { p.store == "" && p.oppositeProp == "" && p.extraQuery == Nil && p.query == Nil }

  /** The shape of a valid prop of each type, said field by field. */
  predicate FlatShape(name: string, p: Prop) {
    Skipped(p.kind)
    || (p.name == name
        && match p.kind
           case IntKind | FloatKind =>
             NoStringParams(p) && NoRefParams(p) && p.props == map[] && DefaultOk(p.kind, p.default_) && MinMaxOk(p)
           case BoolKind =>
             NoStringParams(p) && NoRefParams(p) && NoNumberParams(p) && p.props == map[]
             && DefaultOk(p.kind, p.default_)
           case StringKind | UuidKind =>
             NoNumberParams(p) && NoRefParams(p) && p.props == map[] && DefaultOk(p.kind, p.default_) && LengthsOk(p)
           case DateKind | DateOnlyKind =>
             NoStringParams(p) && NoRefParams(p) && p.props == map[] && DefaultOk(p.kind, p.default_)
           case RefKind | RefListKind =>
             NoStringParams(p) && NoNumberParams(p) && DefaultOk(p.kind, p.default_) && p.store != ""
           case VirtualKind =>
             NoStringParams(p) && NoRefParams(p) && NoNumberParams(p) && p.props == map[] && p.default_ == Nil
           case VirtualRefListKind =>
             NoStringParams(p) && NoNumberParams(p) && p.props == map[] && p.default_ == Nil
             && p.store != "" && (p.foreignKey != "" || p.query != Nil)
           case CommentsKind => NoStringParams(p) && NoNumberParams(p)
           case _ => false)
  }

  /** The shape of an object, its own props aside. An object list keeps its length bounds. */
  predicate ObjectShape(name: string, p: Prop) {
    && p.name == name && NoRefParams(p) && NoNumberParams(p) && p.pattern == Text("") && p.mask == Text("")
    && (p.kind.ObjectKind? ==> p.minLength == 0 && p.maxLength == 0)
  }

  /** An object's props are flat, so validated objects nest one level. */
  predicate Shape(name: string, p: Prop) {
    if IsObject(p.kind) then ObjectShape(name, p) && forall k :: k in p.props ==> FlatShape(k, p.props[k])
    else FlatShape(name, p)
  }

  lemma ScalarCleared(name: string, p: Prop)
    requires p.kind.IntKind? || p.kind.FloatKind? || p.kind.BoolKind? || p.kind.DateKind? || p.kind.DateOnlyKind?
    ensures FlatShape(name, p) <==> p.name == name && Cleared(p) == p && DemandsMet(p)
  {
  }

  lemma TextCleared(name: string, p: Prop)
    requires p.kind.StringKind? || p.kind.UuidKind? || p.kind.VirtualKind?
    ensures FlatShape(name, p) <==> p.name == name && Cleared(p) == p && DemandsMet(p)
  {
  }

  lemma RefCleared(name: string, p: Prop)
    requires p.kind.RefKind? || p.kind.RefListKind?
    ensures FlatShape(name, p) <==> p.name == name && Cleared(p) == p && DemandsMet(p)
  {
  }

  lemma VirtualRefCleared(name: string, p: Prop)
    requires p.kind.VirtualRefListKind?
    ensures FlatShape(name, p) <==> p.name == name && Cleared(p) == p && DemandsMet(p)
  {
  }

  lemma CommentsCleared(name: string, p: Prop)
    requires p.kind.CommentsKind?
    ensures FlatShape(name, p) <==> p.name == name && Cleared(p) == p && DemandsMet(p)
  {
  }

  /** The shape of a flat prop is what clearing leaves alone and the checks accept. */
  lemma ShapeIsCleared(name: string, p: Prop)
    requires !Skipped(p.kind) && !IsObject(p.kind) && !p.kind.Unknown? && !p.kind.Untyped?
    ensures FlatShape(name, p) <==> p.name == name && Cleared(p) == p && DemandsMet(p)
  {
    if p.kind.RefKind? || p.kind.RefListKind? {
      RefCleared(name, p);
    } else if p.kind.VirtualRefListKind? {
      VirtualRefCleared(name, p);
    } else if p.kind.CommentsKind? {
      CommentsCleared(name, p);
    } else if p.kind.StringKind? || p.kind.UuidKind? || p.kind.VirtualKind? {
      TextCleared(name, p);
    } else {
      ScalarCleared(name, p);
    }
  }

  lemma ClearedKeeps(p: Prop)
    ensures Cleared(p).kind == p.kind && Cleared(p).name == p.name
  {
  }

  lemma NumberClearedTwice(p: Prop)
    requires p.kind.IntKind? || p.kind.FloatKind? || p.kind.DateKind? || p.kind.DateOnlyKind?
    ensures Cleared(Cleared(p)) == Cleared(p)
  {
    ClearedKeeps(p);
    assert Cleared(p) == ClearObjectParams(ClearRefParams(ClearStringParams(p)));
  }

  lemma PlainClearedTwice(p: Prop)
    requires p.kind.BoolKind? || p.kind.StringKind? || p.kind.UuidKind? || p.kind.VirtualKind?
    ensures Cleared(Cleared(p)) == Cleared(p)
  {
    ClearedKeeps(p);
    assert NoRefParams(Cleared(p)) && NoNumberParams(Cleared(p));
  }

  lemma LinkedClearedTwice(p: Prop)
    requires IsRef(p) || p.kind.CommentsKind? || IsObject(p.kind)
    ensures Cleared(Cleared(p)) == Cleared(p)
  {
    ClearedKeeps(p);
    assert NoNumberParams(Cleared(p));
  }

  /** Clearing is done after one pass: what one group of settings loses, no other group brings back. */
  lemma ClearedTwice(p: Prop)
    ensures Cleared(Cleared(p)) == Cleared(p)
  {
    if IsRef(p) || p.kind.CommentsKind? || IsObject(p.kind) {
      LinkedClearedTwice(p);
    } else if p.kind.IntKind? || p.kind.FloatKind? || p.kind.DateKind? || p.kind.DateOnlyKind? {
      NumberClearedTwice(p);
    } else if p.kind.BoolKind? || p.kind.StringKind? || p.kind.UuidKind? || p.kind.VirtualKind? {
      PlainClearedTwice(p);
    } else {
      assert Cleared(p) == p;
    }
  }

  /** The flat checks leave alone exactly the props in shape, and store only such props. */
  lemma FlatFixpoint(name: string, p: Prop)
    ensures FlatShape(name, p) <==> CheckFlat(name, p) == Some(p)
    ensures CheckFlat(name, p).Some? ==> FlatShape(name, CheckFlat(name, p).value)
  {
    var named := Named(name, p);
    var q := Cleared(named);
    if !Skipped(named.kind) && !IsObject(named.kind) && !named.kind.Unknown? {
      ClearedKeeps(named);
      ClearedTwice(named);
      ShapeIsCleared(name, named);
      ShapeIsCleared(name, q);
    }
  }

  /** A prop is in the shape of its type if and only if validation accepts it and changes nothing,
      and whatever validation stores is in shape: a second validation succeeds and changes nothing. */
  lemma ShapeIsFixpoint(name: string, p: Prop)
    ensures Shape(name, p) <==> CheckProp(name, p) == Some(p)
    ensures CheckProp(name, p).Some? ==> Shape(name, CheckProp(name, p).value)
  {
    if IsObject(p.kind) {
      NestedFixpoint(p.props);
      ObjectFixpoint(name, p);
    } else {
      FlatFixpoint(name, p);
      ClearedKeeps(Named(name, p));
    }
  }

  lemma ObjectFixpoint(name: string, p: Prop)
    requires IsObject(p.kind)
    ensures var q := Cleared(Named(name, p)); q.kind == p.kind && q.props == p.props && ObjectShape(name, q)
    ensures ObjectShape(name, p) ==> Cleared(Named(name, p)) == p
  {
  }

  lemma NestedFixpoint(props: Props)
    ensures (forall k :: k in props ==> FlatShape(k, props[k])) <==> AllFlat(props) && NormalFlat(props) == props
    ensures AllFlat(props) ==> forall k :: k in props ==> FlatShape(k, NormalFlat(props)[k])
  {
    forall k | k in props
      ensures FlatShape(k, props[k]) <==> CheckFlat(k, props[k]) == Some(props[k])
      ensures CheckFlat(k, props[k]).Some? ==> FlatShape(k, CheckFlat(k, props[k]).value)
    {
      FlatFixpoint(k, props[k]);
    }
    if AllFlat(props) && NormalFlat(props) == props {
      forall k | k in props ensures FlatShape(k, props[k]) {
        assert NormalFlat(props)[k] == props[k];
      }
    }
  }

  /** The normal form of a table: same keys, every prop in shape, and validating again changes nothing. */
  lemma NormalisedIsNormal(props: Props)
    requires AllValid(props, true)
    ensures var done := Normalised(props, true);
      && done.Keys == props.Keys
      && (forall k :: k in done ==> Shape(k, done[k]))
      && AllValid(done, true) && Normalised(done, true) == done
  {
    var done := Normalised(props, true);
    forall k | k in done ensures Shape(k, done[k]) && CheckProp(k, done[k]) == Some(done[k]) {
      ShapeIsFixpoint(k, props[k]);
      ShapeIsFixpoint(k, done[k]);
    }
  }
}
