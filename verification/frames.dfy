/** The tabular data the pipeline works on, with pandas abstracted away:
    a data frame is an ordered sequence of named, typed columns. */
module Frames {

  /** A cell value: an integer or a text cell, compared structurally.
      Floating-point cells (and NaN, which equals nothing) are not modelled. */
  datatype Value = Int(i: int) | Text(s: string)

  /** One column: its header name, its dtype tag (such as "int64") and its cells. */
  datatype Column = Column(name: string, dtype: string, values: seq<Value>)

  /** Columns in header order. Names need not be distinct. */
  type Frame = seq<Column>

  /** The header row of a frame. */
  function Names(f: Frame): (ns: seq<string>)
    ensures |ns| == |f|
    ensures forall i :: 0 <= i < |f| ==> ns[i] == f[i].name
  {
    if |f| == 0 then [] else [f[0].name] + Names(f[1..])
  }

  /** `name in df.columns` */
  predicate HasColumn(f: Frame, name: string)
  {
    name in Names(f)
  }

  /** How many columns of `f` carry the header `name`. */
  function Occurrences(f: Frame, name: string): (n: nat)
    ensures n <= |f|
    ensures n == 0 <==> !HasColumn(f, name)
  {
    if |f| == 0 then 0
    else (if f[0].name == name then 1 else 0) + Occurrences(f[1..], name)
  }

  /** No header appears twice. */
  predicate UniqueNames(f: Frame)
  {
    forall i, j :: 0 <= i < j < |f| ==> f[i].name != f[j].name
  }

  /** Position of the first column called `name`. */
  function IndexOf(f: Frame, name: string): (k: nat)
    requires HasColumn(f, name)
    ensures k < |f| && f[k].name == name
    ensures forall j :: 0 <= j < k ==> f[j].name != name
  {
    if f[0].name == name then 0 else 1 + IndexOf(f[1..], name)
  }

  /** `df[name]` when the header is unique: the first column called `name`. */
  function Find(f: Frame, name: string): (c: Column)
    requires HasColumn(f, name)
    ensures c in f && c.name == name
  {
    f[IndexOf(f, name)]
  }

  /** `set(...)` of a list of cells: each listed value once, so never more
      values than cells, and exactly the values that occur. */
  function ValueSet(cells: seq<Value>): (vs: set<Value>)
    ensures |vs| <= |cells|
    ensures forall i :: 0 <= i < |cells| ==> cells[i] in vs
    ensures forall v :: v in vs ==> v in cells
  {
    if |cells| == 0 then {} else {cells[0]} + ValueSet(cells[1..])
  }

  /** `set(df[name].unique())`: the distinct values of a column. */
  function DistinctValues(c: Column): set<Value>
  {
    ValueSet(c.values)
  }
}
