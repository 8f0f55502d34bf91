/** The one-row pandas DataFrame the prediction step builds (app.py:102) and
    changes (app.py:108-109): an ordered list of labelled cells. A cell holds
    either a number or, for a categorical field whose encoder is missing, the
    raw string. */
module Frames {
  import opened Wrappers

  datatype Value = Num(n: int) | Str(s: string)

  datatype Column = Column(name: string, value: Value)

  /** The column labels, in column order. */
  function Names(cols: seq<Column>): (r: seq<string>)
    ensures |r| == |cols|
    ensures forall k :: 0 <= k < |cols| ==> r[k] == cols[k].name
  {
    if cols == [] then [] else [cols[0].name] + Names(cols[1..])
  }

  predicate Distinct(names: seq<string>) {
    forall i, j :: 0 <= i < j < |names| ==> names[i] != names[j]
  }

  /** The set of labels in a list, as Python's `set(...)` builds it. */
  function Elems(names: seq<string>): (r: set<string>)
    ensures forall n :: n in r <==> n in names
  {
    set n | n in names
  }

  /** `df[name]`: the value in the first column labelled `name`, if any. */
  function Get(cols: seq<Column>, name: string): (r: Option<Value>)
    ensures r.Some? <==> name in Names(cols)
    ensures r.Some? ==> Column(name, r.value) in cols
  {
    if cols == [] then None
    else if cols[0].name == name then Some(cols[0].value)
    else Get(cols[1..], name)
  }

  /** `df[name] = v`: overwrite the first column labelled `name` where it
      stands, or append a new column at the end when there is none. */
  function Assign(cols: seq<Column>, name: string, v: Value): (r: seq<Column>)
    ensures name !in Names(cols) ==> r == cols + [Column(name, v)]
    ensures name in Names(cols) ==> |r| == |cols| && Names(r) == Names(cols)
  {
    if cols == [] then [Column(name, v)]
    else if cols[0].name == name then [Column(name, v)] + cols[1..]
    else [cols[0]] + Assign(cols[1..], name, v)
  }

  /** `df[names]`: the columns labelled `names`, in that order. */
  function Project(cols: seq<Column>, names: seq<string>): (r: seq<Column>)
    requires forall k :: 0 <= k < |names| ==> names[k] in Names(cols)
    ensures |r| == |names|
    ensures forall k :: 0 <= k < |r| ==> r[k].name == names[k] && r[k] in cols
  {
    seq(|names|, k requires 0 <= k < |names| => Column(names[k], Get(cols, names[k]).value))
  }

  /** With unique labels, looking a label up finds the column that has it. */
  lemma {:induction false} GetUnique(cols: seq<Column>, k: nat)
    requires Distinct(Names(cols)) && k < |cols|
    ensures Get(cols, cols[k].name) == Some(cols[k].value)
  {
    if k > 0 {
      var tail := cols[1..];
      assert cols[0].name != cols[k].name by {
        assert Names(cols)[0] == cols[0].name && Names(cols)[k] == cols[k].name;
      }
      DistinctTail(cols);
      assert tail[k - 1] == cols[k];
      GetUnique(tail, k - 1);
    }
  }

  lemma DistinctTail(cols: seq<Column>)
    requires cols != [] && Distinct(Names(cols))
    ensures Distinct(Names(cols[1..]))
  {
    var tail := cols[1..];
    forall i, j | 0 <= i < j < |tail| ensures Names(tail)[i] != Names(tail)[j] {
      assert Names(tail)[i] == Names(cols)[i + 1] && Names(tail)[j] == Names(cols)[j + 1];
    }
  }

  /** When every column labelled `name` holds `v`, looking `name` up gives
      `v`, also when several columns share the label. */
  lemma {:induction false} GetUniform(cols: seq<Column>, name: string, v: Value)
    requires name in Names(cols)
    requires forall k :: 0 <= k < |cols| && cols[k].name == name ==> cols[k].value == v
    ensures Get(cols, name) == Some(v)
  {
    if cols[0].name != name {
      assert name in Names(cols[1..]) by {
        var k :| 0 <= k < |cols| && Names(cols)[k] == name;
        assert Names(cols[1..])[k - 1] == name;
      }
      GetUniform(cols[1..], name, v);
    }
  }

  /** Assigning changes the looked-up value of that label and no other. */
  lemma {:induction false} GetAssign(cols: seq<Column>, name: string, v: Value, other: string)
    ensures Get(Assign(cols, name, v), other) == if other == name then Some(v) else Get(cols, other)
  {
    if cols != [] && cols[0].name != name {
      GetAssign(cols[1..], name, v, other);
    }
  }

  /** Assigning keeps the labels unique. */
  lemma AssignKeepsDistinct(cols: seq<Column>, name: string, v: Value)
    requires Distinct(Names(cols))
    ensures Distinct(Names(Assign(cols, name, v)))
  {
    if name !in Names(cols) {
      var r := Assign(cols, name, v);
      forall i, j | 0 <= i < j < |r| ensures Names(r)[i] != Names(r)[j] {
        if j == |cols| {
          assert Names(r)[i] == Names(cols)[i];
        } else {
          assert Names(r)[i] == Names(cols)[i] && Names(r)[j] == Names(cols)[j];
        }
      }
    }
  }

  /** A DataFrame: its columns, in order. Every frame the prediction step
      builds has unique column labels (`Valid`). */
  class Frame {
    var columns: seq<Column>

    ghost predicate Valid()
      reads this
    {
      Distinct(Names(columns))
    }

    /** `pd.DataFrame(data)`: a frame holding `cols` in the given order. */
    constructor (cols: seq<Column>)
      ensures columns == cols
    {
      columns := cols;
    }

    /** `df[name] = v`, in place. */
    method SetColumn(name: string, v: Value)
      requires Valid()
      modifies this
      ensures Valid()
      ensures columns == Assign(old(columns), name, v)
    {
      AssignKeepsDistinct(columns, name, v);
      columns := Assign(columns, name, v);
    }

    /** `df[names]`: a new frame holding the columns labelled `names`, in that
        order; this frame is left as it is. */
    method Select(names: seq<string>) returns (f: Frame)
      requires forall k :: 0 <= k < |names| ==> names[k] in Names(columns)
      ensures fresh(f)
      ensures f.columns == Project(columns, names)
      ensures Distinct(names) ==> f.Valid()
    {
      f := new Frame(Project(columns, names));
    }
  }
}
