/** Stores, props and filters of the configuration, as far as the compiler of the configuration reads or writes them.
    What it only carries along is kept in one `rest` field. A nil map and an empty map are the same here. */
module ConfigModel {
  import opened Wrappers

  /** A dynamically typed setting. A moment is a date that is already a time value. */
  datatype Value =
    | Nil
    | Number(number: real)
    | Text(text: string)
    | Flag(flag: bool)
    | Moment(at: int)
    | List(items: seq<Value>)
    | Object(fields: map<string, Value>)

  /** The prop types. Untyped is the empty string; Unknown is any other name. */
  datatype Kind =
    | Untyped | IntKind | FloatKind | BoolKind | StringKind | DateKind | DateOnlyKind
    | RefKind | RefListKind | VirtualKind | VirtualClientKind | PasswordKind | ObjectKind | ObjectListKind
    | VirtualRefListKind | CommentsKind | AnyKind | ActionKind | WidgetKind | FileKind | FileListKind | UuidKind
    | Unknown(typeName: string)

  datatype Prop = Prop(
    name: string,
    kind: Kind,
    default_: Value,
    minLength: int,
    maxLength: int,
    pattern: Value,
    mask: Value,
    min: Value,
    max: Value,
    store: string,
    oppositeProp: string,
    extraQuery: Value,
    query: Value,
    foreignKey: string,
    props: map<string, Prop>,
    configurable: bool,
    formGroup: string,
    formTab: string,
    formOrder: int,
    access: Option<seq<string>>,
    display: string,
    readOnly: bool,
    required: Value,
    hidden: Value,
    load: string,
    populateIn: Value,
    caption: string,
    placeholder: string,
    disabled: Value,
    searchBy: seq<Value>,
    rest: string)

  type Props = map<string, Prop>

  /** The prop with every field at its zero value. */
  const BLANK := Prop("", Untyped, Nil, 0, 0, Nil, Nil, Nil, Nil, "", "", Nil, Nil, "", map[], false, "", "", 0,
                      None, "", false, Nil, Nil, "", Nil, "", "", Nil, [], "")

  datatype Filter = Filter(
    caption: string,
    display: string,
    placeholder: string,
    searchBy: seq<Value>,
    store: string,
    filterBy: string,
    options: seq<string>,
    mask: string,
    multi: bool,
    rest: string)

  type Filters = map<string, Filter>

  predicate IsRef(p: Prop) { p.kind.RefKind? || p.kind.RefListKind? || p.kind.VirtualRefListKind? }

  /** A map of props that several holders share and update in place. */
  class PropTable {
    var props: Props

    constructor (props: Props)
      ensures this.props == props
    {
      this.props := props;
    }
  }

  /** A map of filters that several holders share and update in place. */
  class FilterTable {
    var filters: Filters

    constructor (filters: Filters)
      ensures this.filters == filters
    {
      this.filters := filters;
    }
  }
}
