/** The rules of prop validation written out type by type, setting by setting: what is accepted, and what is stored. */
module ConfigRules {
  import opened Wrappers
  import opened ConfigModel
  import opened ConfigProps

  // ---- What is accepted ----

  /** No default, or an expression to compute it: an object whose "$expression" is not nil. */
  predicate NoPlainDefault(p: Prop) {
    || p.default_ == Nil
    || (p.default_.Object? && "$expression" in p.default_.fields && p.default_.fields["$expression"] != Nil)
  }

  /** The bounds of a number: none, numbers in order, or a single one on the right side of zero. */
  predicate BoundsRule(p: Prop) {
    || (p.min == Nil && p.max == Nil)
    || (p.min.Number? && p.max.Number? && p.min.number <= p.max.number)
    || (p.min == Nil && p.max.Number? && p.max.number >= 0.0)
    || (p.max == Nil && p.min.Number? && p.min.number <= 0.0)
  }

  /** The length bounds of a text; zero is no bound. */
  predicate LengthsRule(p: Prop) {
    p.minLength >= 0 && p.maxLength >= 0 && (p.minLength == 0 || p.maxLength == 0 || p.minLength <= p.maxLength)
  }

  /** The rule for a prop that is not an object. */
  predicate Rule(p: Prop) {
    match p.kind
    case IntKind => (NoPlainDefault(p) || p.default_.Number?) && BoundsRule(p)
    case FloatKind => (NoPlainDefault(p) || p.default_.Number?) && BoundsRule(p)
    case BoolKind => NoPlainDefault(p) || p.default_.Flag?
    case StringKind => (NoPlainDefault(p) || p.default_.Text?) && LengthsRule(p)
    case UuidKind => (NoPlainDefault(p) || p.default_.Text?) && LengthsRule(p)
    case Untyped => (NoPlainDefault(p) || p.default_.Text?) && LengthsRule(p)
    case DateKind => NoPlainDefault(p) || p.default_.Moment?
    case DateOnlyKind => NoPlainDefault(p) || p.default_.Moment?
    case RefKind => (NoPlainDefault(p) || p.default_.Text?) && p.store != ""
    case RefListKind => (NoPlainDefault(p) || p.default_.List?) && p.store != ""
    case VirtualRefListKind => p.store != "" && (p.foreignKey != "" || p.query != Nil)
    case VirtualKind => true
    case CommentsKind => true
    case PasswordKind => true
    case FileKind => true
    case FileListKind => true
    case AnyKind => true
    case ActionKind => true
    case WidgetKind => true
    case VirtualClientKind => true
    case ObjectKind => false
    case ObjectListKind => false
    case Unknown(_) => false
  }

  /** The rule at the top level: an object is accepted if its own props are, and they are no objects. */
  predicate TopRule(p: Prop) {
    if p.kind == ObjectKind || p.kind == ObjectListKind then forall k :: k in p.props ==> Rule(p.props[k]) else Rule(p)
  }

  /** The bounds, decided by which of them are there. */
  lemma BoundsDecided(p: Prop)
    ensures MinMaxOk(p) <==> BoundsRule(p)
  {
  }

  lemma NumbersDecided(name: string, p: Prop)
    requires p.kind.IntKind? || p.kind.FloatKind?
    ensures CheckFlat(name, p).Some? <==> Rule(p)
  {
    BoundsDecided(Cleared(Named(name, p)));
  }

  lemma TextsDecided(name: string, p: Prop)
    requires p.kind.StringKind? || p.kind.UuidKind? || p.kind.Untyped?
    ensures CheckFlat(name, p).Some? <==> Rule(p)
  {
  }

  lemma PlainDecided(name: string, p: Prop)
    requires p.kind.BoolKind? || p.kind.DateKind? || p.kind.DateOnlyKind? || p.kind.VirtualKind?
    ensures CheckFlat(name, p).Some? <==> Rule(p)
  {
  }

  lemma LinksDecided(name: string, p: Prop)
    requires p.kind.RefKind? || p.kind.RefListKind? || p.kind.VirtualRefListKind?
    ensures CheckFlat(name, p).Some? <==> Rule(p)
  {
  }

  /** A prop inside an object, or of a type that is no object, is accepted if and only if it keeps the rule of its type:
      its default is nil, an expression or a value of the right sort, its bounds are in order, its reference leads
      somewhere. */
  lemma AcceptedExactly(name: string, p: Prop)
    ensures CheckFlat(name, p).Some? <==> Rule(p)
  {
    if p.kind.IntKind? || p.kind.FloatKind? {
      NumbersDecided(name, p);
    } else if p.kind.StringKind? || p.kind.UuidKind? || p.kind.Untyped? {
      TextsDecided(name, p);
    } else if p.kind.RefKind? || p.kind.RefListKind? || p.kind.VirtualRefListKind? {
      LinksDecided(name, p);
    } else if p.kind.BoolKind? || p.kind.DateKind? || p.kind.DateOnlyKind? || p.kind.VirtualKind? {
      PlainDecided(name, p);
    }
  }

  lemma TopAcceptedExactly(name: string, p: Prop)
    ensures CheckProp(name, p).Some? <==> TopRule(p)
  {
    AcceptedExactly(name, p);
    forall k | k in p.props ensures CheckFlat(k, p.props[k]).Some? <==> Rule(p.props[k]) {
      AcceptedExactly(k, p.props[k]);
    }
  }

  /** A table is accepted if and only if each of its props keeps the rules. */
  lemma TableAcceptedExactly(props: Props)
    ensures AllValid(props, true) <==> forall k :: k in props ==> TopRule(props[k])
    ensures AllValid(props, false) <==> forall k :: k in props ==> Rule(props[k])
  {
    forall k | k in props
      ensures Check(k, props[k], true).Some? <==> TopRule(props[k])
      ensures Check(k, props[k], false).Some? <==> Rule(props[k])
    {
      TopAcceptedExactly(k, props[k]);
      AcceptedExactly(k, props[k]);
    }
  }

  // ---- What is stored ----

  /** What `r` is when `p` was stored under `name`: nothing but the settings named here has changed. */
  predicate IsStored(name: string, p: Prop, r: Prop) {
    match p.kind
    case IntKind => IsNumberStored(name, p, r)
    case FloatKind => IsNumberStored(name, p, r)
    case DateKind => IsNumberStored(name, p, r)
    case DateOnlyKind => IsNumberStored(name, p, r)
    case BoolKind =>
      r == p.(name := name, minLength := 0, maxLength := 0, pattern := Text(""), mask := Text(""),
              min := Nil, max := Nil, store := "", oppositeProp := "", extraQuery := Nil, query := Nil, props := map[])
    case StringKind => IsTextStored(name, p, r)
    case UuidKind => IsTextStored(name, p, r)
    case Untyped => IsTextStored(name, p.(kind := StringKind), r)
    case RefKind => IsLinkStored(name, p, r)
    case RefListKind => IsLinkStored(name, p, r)
    case CommentsKind => IsLinkStored(name, p, r)
    case VirtualRefListKind =>
      r == p.(name := name, minLength := 0, maxLength := 0, pattern := Text(""), mask := Text(""),
              min := Nil, max := Nil, props := map[], default_ := Nil)
    case VirtualKind =>
      r == p.(name := name, minLength := 0, maxLength := 0, pattern := Text(""), mask := Text(""),
              min := Nil, max := Nil, store := "", oppositeProp := "", extraQuery := Nil, query := Nil, props := map[],
              default_ := Nil)
    case PasswordKind => r == p
    case FileKind => r == p
    case FileListKind => r == p
    case AnyKind => r == p
    case ActionKind => r == p
    case WidgetKind => r == p
    case VirtualClientKind => r == p
    case _ => false
  }

  predicate IsNumberStored(name: string, p: Prop, r: Prop) {
    r == p.(name := name, minLength := 0, maxLength := 0, pattern := Text(""), mask := Text(""),
            store := "", oppositeProp := "", extraQuery := Nil, query := Nil, props := map[])
  }

  predicate IsTextStored(name: string, p: Prop, r: Prop) {
    r == p.(name := name, min := Nil, max := Nil, store := "", oppositeProp := "", extraQuery := Nil, query := Nil,
            props := map[])
  }

  predicate IsLinkStored(name: string, p: Prop, r: Prop) {
    r == p.(name := name, minLength := 0, maxLength := 0, pattern := Text(""), mask := Text(""), min := Nil, max := Nil)
  }

  /** The same at the top level. An object keeps its props, each stored under its own name; an object list keeps its
      length bounds as well. */
  predicate IsTopStored(name: string, p: Prop, r: Prop) {
    if p.kind == ObjectKind || p.kind == ObjectListKind then
      && r == p.(name := name, pattern := Text(""), mask := Text(""), min := Nil, max := Nil, store := "",
                 oppositeProp := "", extraQuery := Nil, query := Nil, props := r.props,
                 minLength := if p.kind == ObjectKind then 0 else p.minLength,
                 maxLength := if p.kind == ObjectKind then 0 else p.maxLength)
      && r.props.Keys == p.props.Keys
      && (forall k :: k in p.props ==> IsStored(k, p.props[k], r.props[k]))
    else IsStored(name, p, r)
  }

  lemma NumberStored(name: string, p: Prop)
    requires CheckFlat(name, p).Some?
    requires p.kind.IntKind? || p.kind.FloatKind? || p.kind.DateKind? || p.kind.DateOnlyKind? || p.kind.BoolKind?
    ensures IsStored(name, p, CheckFlat(name, p).value)
  {
  }

  lemma TextStored(name: string, p: Prop)
    requires CheckFlat(name, p).Some?
    requires p.kind.StringKind? || p.kind.UuidKind? || p.kind.Untyped? || p.kind.VirtualKind?
    ensures IsStored(name, p, CheckFlat(name, p).value)
  {
  }

  lemma LinkStored(name: string, p: Prop)
    requires CheckFlat(name, p).Some? && (IsRef(p) || p.kind.CommentsKind?)
    ensures IsStored(name, p, CheckFlat(name, p).value)
  {
  }

  lemma StoredExactly(name: string, p: Prop)
    requires CheckFlat(name, p).Some?
    ensures IsStored(name, p, CheckFlat(name, p).value)
  {
    match p.kind
    case IntKind | FloatKind | DateKind | DateOnlyKind | BoolKind => NumberStored(name, p);
    case StringKind | UuidKind | Untyped | VirtualKind => TextStored(name, p);
    case RefKind | RefListKind | VirtualRefListKind | CommentsKind => LinkStored(name, p);
    case _ =>
  }

  lemma TopStoredExactly(name: string, p: Prop)
    requires CheckProp(name, p).Some?
    ensures IsTopStored(name, p, CheckProp(name, p).value)
  {
    if IsObject(p.kind) {
      forall k | k in p.props ensures IsStored(k, p.props[k], NormalFlat(p.props)[k]) {
        StoredExactly(k, p.props[k]);
      }
    } else {
      StoredExactly(name, p);
    }
  }

  /** What an accepted table becomes: the same keys, each prop as stored under its key. An untyped prop is a string. */
  lemma TableStoredExactly(props: Props)
    requires AllValid(props, true)
    ensures var done := Normalised(props, true);
      && done.Keys == props.Keys
      && (forall k :: k in props ==> IsTopStored(k, props[k], done[k]))
      && (forall k :: k in props && props[k].kind == Untyped ==> done[k].kind == StringKind)
  {
    forall k | k in props ensures IsTopStored(k, props[k], Normalised(props, true)[k]) {
      TopStoredExactly(k, props[k]);
    }
  }
}
