/**
 * LayoutDesc of LayoutDesc.cpp: a layout description read from a JSON
 * object. The "Type" property picks a grid or a list layout; each layout
 * accepts a fixed set of properties, every property must be a string, and
 * any other property is a fatal error.
 *
 * The JSON value is a sequence of members in iteration order; the foreign
 * value parsers and the layout-type parser are the fields of `Parsers`.
 * Fatal errors and assertion failures end the construction with a `Fault`.
 */
module LayoutDescs {
  import opened Wrappers
  import opened U32Arith

  datatype LayoutType = Grid | HList | VList | Unknown
  datatype CellOrder = ColMajor | RowMajor
  datatype Vector4 = Vector4(x: real, y: real, z: real, w: real)

  datatype Json = JString(s: string) | JNonString
  type Member = (string, Json)

  /** Core::ParseVector4, Core::ParseU32, Core::ParseF32 and ParseLayoutType. */
  datatype Parsers = Parsers(
    vector4: string -> Vector4,
    u32: string -> U32,
    f32: string -> real,
    layoutType: string -> LayoutType)

  /** Why constructing a description stops the application. */
  datatype Fault =
    | MissingType
    | InvalidLayoutType
    | NonStringProperty(key: string)
    | UnknownProperty(key: string)
    | UnknownCellOrder(value: string)

  const TYPE_KEY: string := "Type"
  const REL_MARGINS_KEY: string := "RelMargins"
  const ABS_MARGINS_KEY: string := "AbsMargins"
  const NUM_ROWS_KEY: string := "NumRows"
  const NUM_COLS_KEY: string := "NumCols"
  const REL_H_SPACING_KEY: string := "RelHSpacing"
  const ABS_H_SPACING_KEY: string := "AbsHSpacing"
  const REL_V_SPACING_KEY: string := "RelVSpacing"
  const ABS_V_SPACING_KEY: string := "AbsVSpacing"
  const CELL_ORDER_KEY: string := "CellOrder"
  const NUM_CELLS_KEY: string := "NumCells"
  const REL_SPACING_KEY: string := "RelSpacing"
  const ABS_SPACING_KEY: string := "AbsSpacing"

  /** The properties a grid description may have. */
  const GRID_KEYS: set<string> := {
    REL_MARGINS_KEY, ABS_MARGINS_KEY, NUM_ROWS_KEY, NUM_COLS_KEY, REL_H_SPACING_KEY,
    ABS_H_SPACING_KEY, REL_V_SPACING_KEY, ABS_V_SPACING_KEY, CELL_ORDER_KEY, TYPE_KEY}

  /** The properties a list description may have. */
  const LIST_KEYS: set<string> := {
    REL_MARGINS_KEY, ABS_MARGINS_KEY, NUM_CELLS_KEY, REL_SPACING_KEY, ABS_SPACING_KEY, TYPE_KEY}

  /** The properties that set a field of the description. */
  const FIELD_KEYS: set<string> := (GRID_KEYS + LIST_KEYS) - {TYPE_KEY}

  /** StringUtils::ToLowerCase on one character: ASCII letters only. */
  function LowerChar(c: char): (r: char)
    ensures 'A' <= c <= 'Z' ==> r as int == c as int + 32
    ensures !('A' <= c <= 'Z') ==> r == c
  {
    if 'A' <= c <= 'Z' then (c as int + 32) as char else c
  }

  function Lower(s: string): (r: string)
    ensures |r| == |s| && forall i :: 0 <= i < |s| ==> r[i] == LowerChar(s[i])
  {
    if s == [] then [] else [LowerChar(s[0])] + Lower(s[1..])
  }

  /** ParseCellOrder: "colmajor" or "rowmajor" in any letter case; anything else is fatal (None). */
  function ParseCellOrder(s: string): (r: Option<CellOrder>)
    ensures r == Some(ColMajor) <==> Lower(s) == "colmajor"
    ensures r == Some(RowMajor) <==> Lower(s) == "rowmajor"
    ensures r.None? <==> Lower(s) != "colmajor" && Lower(s) != "rowmajor"
  {
    var lower := Lower(s);
    if lower == "colmajor" then Some(ColMajor)
    else if lower == "rowmajor" then Some(RowMajor)
    else None
  }

  /** Letter case does not matter to ParseCellOrder. */
  lemma ParseCellOrderIgnoresCase(s: string, t: string)
    requires Lower(s) == Lower(t)
    ensures ParseCellOrder(s) == ParseCellOrder(t)
  {
  }

  /** Mixed case is accepted. */
  lemma ParseCellOrderMixedCase()
    ensures ParseCellOrder("RowMajor") == Some(RowMajor)
  {
    var s := "RowMajor";
    assert LowerChar(s[0]) == 'r' && LowerChar(s[3]) == 'm';
    assert Lower(s) == "rowmajor";
  }

  /** A value that is neither cell order is rejected. */
  lemma ParseCellOrderRejectsOthers()
    ensures ParseCellOrder("row-major") == None
  {
    assert Lower("row-major")[3] == '-';
  }

  /** The fields of a layout description. */
  datatype Fields = Fields(
    layoutType: LayoutType,
    relativeMargins: Vector4,
    absoluteMargins: Vector4,
    numRows: U32,
    numCols: U32,
    relativeHSpacing: real,
    absoluteHSpacing: real,
    relativeVSpacing: real,
    absoluteVSpacing: real,
    cellOrder: CellOrder,
    relativeSpacing: real,
    absoluteSpacing: real,
    numCells: U32)

  /** One field's value, whatever its type. */
  datatype FieldValue = V4(v: Vector4) | U(n: U32) | R(x: real) | C(order: CellOrder)

  /** The field that property `key` sets. */
  function Project(f: Fields, key: string): FieldValue
    requires key in FIELD_KEYS
  {
    if key == REL_MARGINS_KEY then V4(f.relativeMargins)
    else if key == ABS_MARGINS_KEY then V4(f.absoluteMargins)
    else if key == NUM_ROWS_KEY then U(f.numRows)
    else if key == NUM_COLS_KEY then U(f.numCols)
    else if key == REL_H_SPACING_KEY then R(f.relativeHSpacing)
    else if key == ABS_H_SPACING_KEY then R(f.absoluteHSpacing)
    else if key == REL_V_SPACING_KEY then R(f.relativeVSpacing)
    else if key == ABS_V_SPACING_KEY then R(f.absoluteVSpacing)
    else if key == CELL_ORDER_KEY then C(f.cellOrder)
    else if key == NUM_CELLS_KEY then U(f.numCells)
    else if key == REL_SPACING_KEY then R(f.relativeSpacing)
    else R(f.absoluteSpacing)
  }

  /** What property `key` with string `value` parses to; None for a cell order that does not parse. */
  function ParseFor(key: string, value: string, p: Parsers): Option<FieldValue>
    requires key in FIELD_KEYS
  {
    if key in {REL_MARGINS_KEY, ABS_MARGINS_KEY} then Some(V4(p.vector4(value)))
    else if key in {NUM_ROWS_KEY, NUM_COLS_KEY, NUM_CELLS_KEY} then Some(U(p.u32(value)))
    else if key == CELL_ORDER_KEY then
      (match ParseCellOrder(value) case Some(o) => Some(C(o)) case None => None)
    else Some(R(p.f32(value)))
  }

  /** The branch of InitAsGrid or InitAsList for a recognised property. */
  function Assign(f: Fields, key: string, value: string, p: Parsers): (r: Result<Fields, Fault>)
    requires key in GRID_KEYS + LIST_KEYS
    ensures r.Err? <==> key == CELL_ORDER_KEY && ParseCellOrder(value).None?
    ensures r.Err? ==> r.error == UnknownCellOrder(value)
    ensures r.Ok? ==> r.value.layoutType == f.layoutType
  {
    if key == REL_MARGINS_KEY then Ok(f.(relativeMargins := p.vector4(value)))
    else if key == ABS_MARGINS_KEY then Ok(f.(absoluteMargins := p.vector4(value)))
    else if key == NUM_ROWS_KEY then Ok(f.(numRows := p.u32(value)))
    else if key == NUM_COLS_KEY then Ok(f.(numCols := p.u32(value)))
    else if key == REL_H_SPACING_KEY then Ok(f.(relativeHSpacing := p.f32(value)))
    else if key == ABS_H_SPACING_KEY then Ok(f.(absoluteHSpacing := p.f32(value)))
    else if key == REL_V_SPACING_KEY then Ok(f.(relativeVSpacing := p.f32(value)))
    else if key == ABS_V_SPACING_KEY then Ok(f.(absoluteVSpacing := p.f32(value)))
    else if key == CELL_ORDER_KEY then
      (match ParseCellOrder(value)
        case Some(o) => Ok(f.(cellOrder := o))
        case None => Err(UnknownCellOrder(value)))
    else if key == NUM_CELLS_KEY then Ok(f.(numCells := p.u32(value)))
    else if key == REL_SPACING_KEY then Ok(f.(relativeSpacing := p.f32(value)))
    else if key == ABS_SPACING_KEY then Ok(f.(absoluteSpacing := p.f32(value)))
    else Ok(f)
  }

  /** Each recognised property sets its own field to its parsed value and nothing else; "Type" sets nothing. */
  lemma AssignOnlyItsField(f: Fields, key: string, value: string, p: Parsers)
    requires key in GRID_KEYS + LIST_KEYS
    ensures key == TYPE_KEY ==> Assign(f, key, value, p) == Ok(f)
    ensures key != TYPE_KEY ==>
      match ParseFor(key, value, p)
        case None => Assign(f, key, value, p) == Err(UnknownCellOrder(value))
        case Some(v) =>
          && Assign(f, key, value, p).Ok?
          && Project(Assign(f, key, value, p).value, key) == v
          && Assign(f, key, value, p).value.layoutType == f.layoutType
          && forall k :: k in FIELD_KEYS && k != key ==> Project(Assign(f, key, value, p).value, k) == Project(f, k)
  {
  }

  /** InitAsGrid (`grid`) or InitAsList (`!grid`) from member `i` on, starting from fields `f`. */
  function InitFrom(json: seq<Member>, grid: bool, i: nat, f: Fields, p: Parsers): (r: Result<Fields, Fault>)
    requires i <= |json|
    ensures r.Ok? ==> r.value.layoutType == f.layoutType
    ensures r.Err? ==> r.error.NonStringProperty? || r.error.UnknownProperty? || r.error.UnknownCellOrder?
    decreases |json| - i
  {
    if i == |json| then Ok(f)
    else
      var (key, value) := json[i];
      if !value.JString? then Err(NonStringProperty(key))
      else if key !in (if grid then GRID_KEYS else LIST_KEYS) then Err(UnknownProperty(key))
      else match Assign(f, key, value.s, p)
        case Err(e) => Err(e)
        case Ok(g) => InitFrom(json, grid, i + 1, g, p)
  }

  /** A member the layout accepts: a string value, a key of the layout, and a cell order that parses. */
  predicate Accepted(m: Member, grid: bool)
  {
    && m.1.JString?
    && m.0 in (if grid then GRID_KEYS else LIST_KEYS)
    && (m.0 == CELL_ORDER_KEY ==> ParseCellOrder(m.1.s).Some?)
  }

  /** The whitelist: a description is accepted exactly when every member is. */
  lemma {:induction false} InitAcceptsExactly(json: seq<Member>, grid: bool, i: nat, f: Fields, p: Parsers)
    requires i <= |json|
    ensures InitFrom(json, grid, i, f, p).Ok? <==> forall j :: i <= j < |json| ==> Accepted(json[j], grid)
    decreases |json| - i
  {
    if i < |json| {
      var (key, value) := json[i];
      if value.JString? && key in (if grid then GRID_KEYS else LIST_KEYS) {
        var a := Assign(f, key, value.s, p);
        if a.Ok? {
          InitAcceptsExactly(json, grid, i + 1, a.value, p);
        }
      }
    }
  }

  /** The first member the layout rejects names the fault. */
  lemma {:induction false} InitRejectsFirstBadMember(json: seq<Member>, grid: bool, i: nat, f: Fields, p: Parsers, bad: nat)
    requires i <= bad < |json| && !Accepted(json[bad], grid)
    requires forall j :: i <= j < bad ==> Accepted(json[j], grid)
    ensures InitFrom(json, grid, i, f, p) ==
      if !json[bad].1.JString? then Err(NonStringProperty(json[bad].0))
      else if json[bad].0 !in (if grid then GRID_KEYS else LIST_KEYS) then Err(UnknownProperty(json[bad].0))
      else Err(UnknownCellOrder(json[bad].1.s))
    decreases bad - i
  {
    if i < bad {
      var (key, value) := json[i];
      InitRejectsFirstBadMember(json, grid, i + 1, Assign(f, key, value.s, p).value, p, bad);
    }
  }

  /** The value of the last member with key `key` from `i` on. */
  function LastValue(json: seq<Member>, key: string, i: nat): Option<string>
    requires i <= |json|
    decreases |json| - i
  {
    if i == |json| then None
    else
      match LastValue(json, key, i + 1)
        case Some(v) => Some(v)
        case None => if json[i].0 == key && json[i].1.JString? then Some(json[i].1.s) else None
  }

  /**
   * An accepted description leaves every field at the parse of its last
   * property, or at its initial value when it has none, and the type alone.
   */
  lemma {:induction false} InitSetsLastValues(json: seq<Member>, grid: bool, i: nat, f: Fields, p: Parsers, key: string)
    requires i <= |json| && key in FIELD_KEYS
    requires InitFrom(json, grid, i, f, p).Ok?
    ensures InitFrom(json, grid, i, f, p).value.layoutType == f.layoutType
    ensures match LastValue(json, key, i)
      case None => Project(InitFrom(json, grid, i, f, p).value, key) == Project(f, key)
      case Some(v) => ParseFor(key, v, p) == Some(Project(InitFrom(json, grid, i, f, p).value, key))
    decreases |json| - i
  {
    if i < |json| {
      var (k, value) := json[i];
      AssignOnlyItsField(f, k, value.s, p);
      InitSetsLastValues(json, grid, i + 1, Assign(f, k, value.s, p).value, p, key);
    }
  }

  /** The first member with key `key`, as Json::Value::get finds it. */
  function Get(json: seq<Member>, key: string): (r: Option<Json>)
    ensures r.Some? <==> exists j :: 0 <= j < |json| && json[j].0 == key
  {
    if json == [] then None
    else if json[0].0 == key then Some(json[0].1)
    else
      var rest := Get(json[1..], key);
      assert forall j :: 1 <= j < |json| ==> json[j] == json[1..][j - 1];
      rest
  }

  /** What the LayoutDesc constructor makes of `json`, starting from the fields' initial values. */
  function Describe(json: seq<Member>, p: Parsers, initial: Fields): (r: Result<Fields, Fault>)
    ensures Get(json, TYPE_KEY).None? ==> r == Err(MissingType)
    ensures r.Ok? ==> r.value.layoutType != Unknown
  {
    match Get(json, TYPE_KEY)
      case None => Err(MissingType)
      case Some(JNonString) => Err(NonStringProperty(TYPE_KEY))
      case Some(JString(s)) =>
        var t := p.layoutType(s);
        if t == Grid then InitFrom(json, true, 0, initial.(layoutType := t), p)
        else if t == HList || t == VList then InitFrom(json, false, 0, initial.(layoutType := t), p)
        else Err(InvalidLayoutType)
  }

  /** The constructor's dispatch: no "Type" is an assertion failure, an unknown type is fatal, and the type is kept. */
  lemma DescribeDispatch(json: seq<Member>, p: Parsers, initial: Fields)
    ensures (forall j :: 0 <= j < |json| ==> json[j].0 != TYPE_KEY) ==> Describe(json, p, initial) == Err(MissingType)
    ensures Describe(json, p, initial).Ok? ==>
      && Get(json, TYPE_KEY).Some? && Get(json, TYPE_KEY).value.JString?
      && var t := p.layoutType(Get(json, TYPE_KEY).value.s);
      && t != Unknown
      && Describe(json, p, initial).value.layoutType == t
      && forall j :: 0 <= j < |json| ==> Accepted(json[j], t == Grid)
  {
    if Describe(json, p, initial).Ok? {
      var t := p.layoutType(Get(json, TYPE_KEY).value.s);
      var f := initial.(layoutType := t);
      InitAcceptsExactly(json, t == Grid, 0, f, p);
      InitSetsLastValues(json, t == Grid, 0, f, p, REL_MARGINS_KEY);
    }
  }

  /** A grid description with a list property is rejected, and a list description with a grid property. */
  lemma WrongLayoutPropertyIsFatal(json: seq<Member>, p: Parsers, initial: Fields, j: nat)
    requires j < |json|
    requires Get(json, TYPE_KEY).Some? && Get(json, TYPE_KEY).value.JString?
    requires var t := p.layoutType(Get(json, TYPE_KEY).value.s);
      || (t == Grid && json[j].0 == NUM_CELLS_KEY)
      || ((t == HList || t == VList) && json[j].0 in {NUM_ROWS_KEY, CELL_ORDER_KEY})
    ensures Describe(json, p, initial).Err?
  {
    DescribeDispatch(json, p, initial);
    KeySetsDiffer();
  }

  lemma KeySetsDiffer()
    ensures NUM_CELLS_KEY !in GRID_KEYS
    ensures NUM_ROWS_KEY !in LIST_KEYS && CELL_ORDER_KEY !in LIST_KEYS
  {
    assert NUM_CELLS_KEY[3] == 'C' && NUM_CELLS_KEY[4] == 'e';
    assert NUM_ROWS_KEY[3] == 'R' && CELL_ORDER_KEY[0] == 'C';
  }

  class LayoutDesc {
    var layoutType: LayoutType
    var relativeMargins: Vector4
    var absoluteMargins: Vector4
    var numRows: U32
    var numCols: U32
    var relativeHSpacing: real
    var absoluteHSpacing: real
    var relativeVSpacing: real
    var absoluteVSpacing: real
    var cellOrder: CellOrder
    var relativeSpacing: real
    var absoluteSpacing: real
    var numCells: U32

    /** The description's fields as one value. */
    function Snapshot(): Fields
      reads this
    {
      Fields(layoutType, relativeMargins, absoluteMargins, numRows, numCols, relativeHSpacing,
             absoluteHSpacing, relativeVSpacing, absoluteVSpacing, cellOrder, relativeSpacing,
             absoluteSpacing, numCells)
    }

    /** The fields' initial values, before the JSON is read. */
    constructor WithFields(f: Fields)
      ensures Snapshot() == f
    {
      layoutType := f.layoutType;
      relativeMargins := f.relativeMargins;
      absoluteMargins := f.absoluteMargins;
      numRows := f.numRows;
      numCols := f.numCols;
      relativeHSpacing := f.relativeHSpacing;
      absoluteHSpacing := f.absoluteHSpacing;
      relativeVSpacing := f.relativeVSpacing;
      absoluteVSpacing := f.absoluteVSpacing;
      cellOrder := f.cellOrder;
      relativeSpacing := f.relativeSpacing;
      absoluteSpacing := f.absoluteSpacing;
      numCells := f.numCells;
    }

    /** InitAsGrid: each grid property sets its field; any other property, or a non-string value, is fatal. */
    method InitAsGrid(json: seq<Member>, p: Parsers) returns (fault: Option<Fault>)
      modifies this
      ensures match InitFrom(json, true, 0, old(Snapshot()), p)
        case Ok(f) => fault == None && Snapshot() == f
        case Err(e) => fault == Some(e)
    {
      var i := 0;
      while i < |json|
        invariant i <= |json|
        invariant InitFrom(json, true, i, Snapshot(), p) == InitFrom(json, true, 0, old(Snapshot()), p)
      {
        var key := json[i].0;
        if !json[i].1.JString? {
          return Some(NonStringProperty(key));
        }
        fault := GridMember(key, json[i].1.s, p);
        if fault.Some? {
          return;
        }
        i := i + 1;
      }
      return None;
    }

    /** The body of InitAsGrid's loop for one member with a string value. */
    method GridMember(key: string, value: string, p: Parsers) returns (fault: Option<Fault>)
      modifies this
      ensures key !in GRID_KEYS ==> fault == Some(UnknownProperty(key))
      ensures key in GRID_KEYS ==>
        match Assign(old(Snapshot()), key, value, p)
          case Ok(f) => fault == None && Snapshot() == f
          case Err(e) => fault == Some(e)
    {
      if key == REL_MARGINS_KEY {
        relativeMargins := p.vector4(value);
      } else if key == ABS_MARGINS_KEY {
        absoluteMargins := p.vector4(value);
      } else if key == NUM_ROWS_KEY {
        numRows := p.u32(value);
      } else if key == NUM_COLS_KEY {
        numCols := p.u32(value);
      } else if key == REL_H_SPACING_KEY {
        relativeHSpacing := p.f32(value);
      } else if key == ABS_H_SPACING_KEY {
        absoluteHSpacing := p.f32(value);
      } else if key == REL_V_SPACING_KEY {
        relativeVSpacing := p.f32(value);
      } else if key == ABS_V_SPACING_KEY {
        absoluteVSpacing := p.f32(value);
      } else if key == CELL_ORDER_KEY {
        var order := ParseCellOrder(value);
        if order.None? {
          return Some(UnknownCellOrder(value));
        }
        cellOrder := order.value;
      } else if key == TYPE_KEY {
      } else {
        return Some(UnknownProperty(key));
      }
      return None;
    }

    /** InitAsList: each list property sets its field; any other property, or a non-string value, is fatal. */
    method InitAsList(json: seq<Member>, p: Parsers) returns (fault: Option<Fault>)
      modifies this
      ensures match InitFrom(json, false, 0, old(Snapshot()), p)
        case Ok(f) => fault == None && Snapshot() == f
        case Err(e) => fault == Some(e)
    {
      var i := 0;
      while i < |json|
        invariant i <= |json|
        invariant InitFrom(json, false, i, Snapshot(), p) == InitFrom(json, false, 0, old(Snapshot()), p)
      {
        var key := json[i].0;
        if !json[i].1.JString? {
          return Some(NonStringProperty(key));
        }
        fault := ListMember(key, json[i].1.s, p);
        if fault.Some? {
          return;
        }
        i := i + 1;
      }
      return None;
    }

    /** The body of InitAsList's loop for one member with a string value. */
    method ListMember(key: string, value: string, p: Parsers) returns (fault: Option<Fault>)
      modifies this
      ensures key !in LIST_KEYS ==> fault == Some(UnknownProperty(key))
      ensures key in LIST_KEYS ==>
        match Assign(old(Snapshot()), key, value, p)
          case Ok(f) => fault == None && Snapshot() == f
          case Err(e) => fault == Some(e)
    {
      if key == REL_MARGINS_KEY {
        relativeMargins := p.vector4(value);
      } else if key == ABS_MARGINS_KEY {
        absoluteMargins := p.vector4(value);
      } else if key == NUM_CELLS_KEY {
        numCells := p.u32(value);
      } else if key == REL_SPACING_KEY {
        relativeSpacing := p.f32(value);
      } else if key == ABS_SPACING_KEY {
        absoluteSpacing := p.f32(value);
      } else if key == TYPE_KEY {
      } else {
        return Some(UnknownProperty(key));
      }
      return None;
    }
  }

  /** The LayoutDesc constructor: reads "Type", then the grid or list properties. */
  method FromJson(json: seq<Member>, p: Parsers, initial: Fields) returns (r: Result<LayoutDesc, Fault>)
    ensures match Describe(json, p, initial)
      case Ok(f) => r.Ok? && fresh(r.value) && r.value.Snapshot() == f
      case Err(e) => r == Err(e)
  {
    var typeJson := Get(json, TYPE_KEY);
    if typeJson.None? {
      return Err(MissingType);
    }
    if !typeJson.value.JString? {
      return Err(NonStringProperty(TYPE_KEY));
    }
    var desc := new LayoutDesc.WithFields(initial);
    desc.layoutType := p.layoutType(typeJson.value.s);
    var fault: Option<Fault>;
    match desc.layoutType {
      case Grid =>
        fault := desc.InitAsGrid(json, p);
      case HList =>
        fault := desc.InitAsList(json, p);
      case VList =>
        fault := desc.InitAsList(json, p);
      case Unknown =>
        fault := Some(InvalidLayoutType);
    }
    if fault.Some? {
      return Err(fault.value);
    }
    return Ok(desc);
  }
}
